/** Length-prefixed frames over a byte stream, decoded as chunks arrive. */
module Framing {
  type Byte = b: int | 0 <= b < 256

  const MAX_UINT32 := 0xFFFF_FFFF

  /** What the JSON reader makes of one body: unreadable, not an envelope, or an envelope, perhaps with routing
      removed. */
  datatype Parsed<+E> = Unreadable | NotEnvelope | Envelope(envelope: E, sanitized: bool)

  type Parser<!E> = seq<Byte> -> Parsed<E>

  // ---------- four-byte lengths ----------

  function WriteUint32(n: nat): (bytes: seq<Byte>)
    requires n <= MAX_UINT32
    ensures |bytes| == 4
  {
    [n % 256, n / 256 % 256, n / 65536 % 256, n / 16777216]
  }

  function ReadUint32(data: seq<Byte>): nat
    requires |data| >= 4
  {
    data[0] as int + 256 * (data[1] as int) + 65536 * (data[2] as int) + 16777216 * (data[3] as int)
  }

  lemma LowDigit(low: nat, high: nat)
    requires low < 256
    ensures (low + 256 * high) % 256 == low && (low + 256 * high) / 256 == high
  {
  }

  /** Writing a length and reading it back, in either order, changes nothing. */
  lemma Uint32RoundTrip(n: nat, data: seq<Byte>)
    requires n <= MAX_UINT32 && |data| == 4
    ensures ReadUint32(WriteUint32(n)) == n
    ensures ReadUint32(data) <= MAX_UINT32 && WriteUint32(ReadUint32(data)) == data
  {
    var a, b, c, d := data[0] as int, data[1] as int, data[2] as int, data[3] as int;
    var m := ReadUint32(data);
    LowDigit(a, b + 256 * (c + 256 * d));
    LowDigit(b, c + 256 * d);
    LowDigit(c, d);
    assert m == a + 256 * (b + 256 * (c + 256 * d));
    assert m / 65536 == m / 256 / 256 && m / 16777216 == m / 256 / 256 / 256;
    assert n / 65536 == n / 256 / 256 && n / 16777216 == n / 256 / 256 / 256;
  }

  // ---------- the whole stream at once ----------

  /** Either the envelopes with what is left over, or the envelopes before the byte stream broke. */
  datatype Decoding<+E> =
    | Open(envelopes: seq<E>, malformed: nat, rest: seq<Byte>)
    | Broken(envelopes: seq<E>, malformed: nat)

  function After<E>(envelopes: seq<E>, malformed: nat, tail: Decoding<E>): Decoding<E> {
    match tail
    case Open(more, count, rest) => Open(envelopes + more, malformed + count, rest)
    case Broken(more, count) => Broken(envelopes + more, malformed + count)
  }

  function Decode<E>(data: seq<Byte>, limit: nat, parse: Parser<E>): Decoding<E> {
    if |data| < 4 then Open([], 0, data)
    else
      var length := ReadUint32(data);
      if length == 0 || length > limit then Broken([], 0)
      else if |data| < length + 4 then Open([], 0, data)
      else
        match parse(data[4..length + 4])
        case Unreadable => Broken([], 0)
        case NotEnvelope => After([], 1, Decode(data[length + 4..], limit, parse))
        case Envelope(envelope, sanitized) =>
          After([envelope], if sanitized then 1 else 0, Decode(data[length + 4..], limit, parse))
  }

  lemma AfterAfter<E>(a: seq<E>, m: nat, b: seq<E>, n: nat, d: Decoding<E>)
    ensures After(a, m, After(b, n, d)) == After(a + b, m + n, d)
  {
    assert a + (b + d.envelopes) == a + b + d.envelopes;
  }

  /** Decoding a longer stream continues from the leftover; a broken prefix stays broken where it broke. */
  lemma {:induction false} DecodeContinues<E>(data: seq<Byte>, more: seq<Byte>, limit: nat, parse: Parser<E>)
    ensures var d := Decode(data, limit, parse);
            Decode(data + more, limit, parse)
            == if d.Open? then After(d.envelopes, d.malformed, Decode(d.rest + more, limit, parse)) else d
    decreases |data|
  {
    if |data| >= 4 {
      var length := ReadUint32(data);
      assert ReadUint32(data + more) == length;
      if 0 < length <= limit && |data| >= length + 4 {
        assert (data + more)[4..length + 4] == data[4..length + 4];
        assert (data + more)[length + 4..] == data[length + 4..] + more;
        DecodeContinues(data[length + 4..], more, limit, parse);
        var tail := Decode(data[length + 4..], limit, parse);
        if tail.Open? && parse(data[4..length + 4]) != Unreadable {
          var read := parse(data[4..length + 4]);
          var head := if read.Envelope? then [read.envelope] else [];
          var count := if read.NotEnvelope? || read.sanitized then 1 else 0;
          AfterAfter(head, count, tail.envelopes, tail.malformed, Decode(tail.rest + more, limit, parse));
        }
      } else if 0 < length <= limit {
        AfterNothing(Decode(data + more, limit, parse));
      }
    } else {
      AfterNothing(Decode(data + more, limit, parse));
    }
  }

  /** One turn of the decoding loop. */
  lemma FrameStep<E>(rest: seq<Byte>, limit: nat, parse: Parser<E>, envelopes: seq<E>, malformed: nat)
    requires 4 <= |rest| && 0 < ReadUint32(rest) <= limit && ReadUint32(rest) + 4 <= |rest|
    ensures var next := ReadUint32(rest) + 4;
            After(envelopes, malformed, Decode(rest, limit, parse))
            == FrameResult(parse(rest[4..next]), envelopes, malformed, Decode(rest[next..], limit, parse))
  {
    var tail := Decode(rest[ReadUint32(rest) + 4..], limit, parse);
    match parse(rest[4..ReadUint32(rest) + 4])
    case Unreadable => assert envelopes + [] == envelopes;
    case NotEnvelope =>
      AfterAfter(envelopes, malformed, [], 1, tail);
      assert envelopes + [] == envelopes;
    case Envelope(envelope, sanitized) =>
      AfterAfter(envelopes, malformed, [envelope], if sanitized then 1 else 0, tail);
  }

  function FrameResult<E>(read: Parsed<E>, envelopes: seq<E>, malformed: nat, tail: Decoding<E>): Decoding<E> {
    match read
    case Unreadable => Broken(envelopes, malformed)
    case NotEnvelope => After(envelopes, malformed + 1, tail)
    case Envelope(envelope, sanitized) =>
      After(envelopes + [envelope], malformed + if sanitized then 1 else 0, tail)
  }

  /** The loop stops at a bad length, and when what is left is not a whole frame. */
  lemma Stops<E>(rest: seq<Byte>, limit: nat, parse: Parser<E>, envelopes: seq<E>, malformed: nat)
    ensures |rest| >= 4 && !(0 < ReadUint32(rest) <= limit) ==>
              After(envelopes, malformed, Decode(rest, limit, parse)) == Broken(envelopes, malformed)
    ensures |rest| < 4 || (0 < ReadUint32(rest) <= limit && |rest| < ReadUint32(rest) + 4) ==>
              After(envelopes, malformed, Decode(rest, limit, parse)) == Open(envelopes, malformed, rest)
  {
    assert envelopes + [] == envelopes;
  }

  lemma AfterNothing<E>(d: Decoding<E>)
    ensures After([], 0, d) == d
  {
    assert [] + d.envelopes == d.envelopes;
  }

  /** The leftover is one unfinished frame: bounded, and nothing more can be read from it. */
  lemma {:induction false} LeftoverIsUnfinished<E>(data: seq<Byte>, limit: nat, parse: Parser<E>)
    requires Decode(data, limit, parse).Open?
    ensures var rest := Decode(data, limit, parse).rest;
            && |rest| <= limit + 3
            && Decode(rest, limit, parse) == Open([], 0, rest)
    decreases |data|
  {
    if |data| >= 4 && |data| >= ReadUint32(data) + 4 {
      LeftoverIsUnfinished(data[ReadUint32(data) + 4..], limit, parse);
    }
  }

  // ---------- the stream in chunks ----------

  function Flatten(chunks: seq<seq<Byte>>): seq<Byte> {
    if chunks == [] then [] else Flatten(chunks[..|chunks| - 1]) + chunks[|chunks| - 1]
  }

  /** What all pushes so far returned; a push that throws returns nothing and ends the connection. */
  function Pushed<E>(chunks: seq<seq<Byte>>, limit: nat, parse: Parser<E>): Decoding<E> {
    if chunks == [] then Open([], 0, [])
    else
      var before := Pushed(chunks[..|chunks| - 1], limit, parse);
      if before.Broken? then before
      else
        var now := Decode(before.rest + chunks[|chunks| - 1], limit, parse);
        if now.Open? then Open(before.envelopes + now.envelopes, before.malformed + now.malformed, now.rest)
        else Broken(before.envelopes, before.malformed + now.malformed)
  }

  /** Chunking never shows: an unbroken stream gives the same envelopes, count and leftover however it is split;
      on a broken one what was returned is a prefix of the good envelopes and every malformed one was still counted. */
  lemma {:induction false} ChunkingIsInvisible<E>(chunks: seq<seq<Byte>>, limit: nat, parse: Parser<E>)
    ensures var whole := Decode(Flatten(chunks), limit, parse);
            var pushed := Pushed(chunks, limit, parse);
            && (whole.Open? ==> pushed == whole)
            && (whole.Broken? ==>
                  pushed.Broken? && pushed.envelopes <= whole.envelopes && pushed.malformed == whole.malformed)
  {
    if chunks != [] {
      var front, last := chunks[..|chunks| - 1], chunks[|chunks| - 1];
      ChunkingIsInvisible(front, limit, parse);
      DecodeContinues(Flatten(front), last, limit, parse);
    }
  }

  /** Exactly the envelopes completed before the breaking chunk are returned; those of that chunk are lost. */
  lemma BrokenPushLosesItsOwn<E>(chunks: seq<seq<Byte>>, last: seq<Byte>, limit: nat, parse: Parser<E>)
    requires Decode(Flatten(chunks), limit, parse).Open?
    requires Decode(Flatten(chunks) + last, limit, parse).Broken?
    ensures Pushed(chunks + [last], limit, parse).Broken?
    ensures Pushed(chunks + [last], limit, parse).envelopes == Decode(Flatten(chunks), limit, parse).envelopes
  {
    assert (chunks + [last])[..|chunks|] == chunks;
    ChunkingIsInvisible(chunks, limit, parse);
    ChunkingIsInvisible(chunks + [last], limit, parse);
  }

  // ---------- encoding ----------

  function Frame(body: seq<Byte>): seq<Byte>
    requires |body| <= MAX_UINT32
  {
    WriteUint32(|body|) + body
  }

  ghost predicate InBounds(bodies: seq<seq<Byte>>, limit: nat) {
    limit <= MAX_UINT32 && forall i :: 0 <= i < |bodies| ==> 0 < |bodies[i]| <= limit
  }

  function Frames(bodies: seq<seq<Byte>>): seq<Byte>
    requires InBounds(bodies, MAX_UINT32)
  {
    if bodies == [] then [] else Frame(bodies[0]) + Frames(bodies[1..])
  }

  /** The envelopes that these bodies read as. */
  function EnvelopesOf<E>(bodies: seq<seq<Byte>>, parse: Parser<E>): seq<E> {
    if bodies == [] then []
    else
      var read := parse(bodies[0]);
      (if read.Envelope? then [read.envelope] else []) + EnvelopesOf(bodies[1..], parse)
  }

  /** How many of them are no envelopes, or only with their routing removed. */
  function Blemished<E>(bodies: seq<seq<Byte>>, parse: Parser<E>): nat {
    if bodies == [] then 0
    else
      var read := parse(bodies[0]);
      (if read.NotEnvelope? || (read.Envelope? && read.sanitized) then 1 else 0) + Blemished(bodies[1..], parse)
  }

  /** Whatever readable frames a stream begins with: their envelopes come out in order, the blemished ones are counted,
      and decoding goes on with what follows. */
  lemma {:induction false} ReadableFramesDecode<E>(
    bodies: seq<seq<Byte>>, tail: seq<Byte>, limit: nat, parse: Parser<E>)
    requires InBounds(bodies, limit)
    requires forall i :: 0 <= i < |bodies| ==> parse(bodies[i]) != Unreadable
    ensures Decode(Frames(bodies) + tail, limit, parse)
            == After(EnvelopesOf(bodies, parse), Blemished(bodies, parse), Decode(tail, limit, parse))
  {
    if bodies == [] {
      assert Frames(bodies) + tail == tail;
      AfterNothing(Decode(tail, limit, parse));
    } else {
      var body, more := bodies[0], Frames(bodies[1..]) + tail;
      assert Frames(bodies) + tail == Frame(body) + more;
      assert parse(bodies[0]) != Unreadable;
      OneFrame(body, more, limit, parse);
      ReadableFramesDecode(bodies[1..], tail, limit, parse);
      var head := if parse(body).Envelope? then [parse(body).envelope] else [];
      AfterAfter(head, if parse(body).NotEnvelope? || parse(body).sanitized then 1 else 0,
                 EnvelopesOf(bodies[1..], parse), Blemished(bodies[1..], parse), Decode(tail, limit, parse));
    }
  }

  lemma OneFrame<E>(body: seq<Byte>, more: seq<Byte>, limit: nat, parse: Parser<E>)
    requires 0 < |body| <= limit <= MAX_UINT32
    ensures var data, read := Frame(body) + more, parse(body);
            Decode(data, limit, parse)
            == if read.Unreadable? then Broken([], 0)
               else After(if read.Envelope? then [read.envelope] else [],
                          if read.NotEnvelope? || read.sanitized then 1 else 0, Decode(more, limit, parse))
  {
    var data := Frame(body) + more;
    assert data == WriteUint32(|body|) + (body + more);
    assert data[..4] == WriteUint32(|body|);
    Uint32RoundTrip(|body|, WriteUint32(|body|));
    assert ReadUint32(data) == |body|;
    assert data[4..|body| + 4] == body && data[|body| + 4..] == more;
  }

  /** And then: an unreadable body breaks the stream, and so does a length of zero or above the limit; an unfinished
      frame waits for more. */
  lemma StreamBreaksExactlyAt<E>(
    bodies: seq<seq<Byte>>, length: nat, more: seq<Byte>, limit: nat, parse: Parser<E>)
    requires InBounds(bodies, limit) && length <= MAX_UINT32
    requires forall i :: 0 <= i < |bodies| ==> parse(bodies[i]) != Unreadable
    ensures var data, envelopes := Frames(bodies) + (WriteUint32(length) + more), EnvelopesOf(bodies, parse);
            && (length == 0 || length > limit ==>
                  Decode(data, limit, parse) == Broken(envelopes, Blemished(bodies, parse)))
            && (0 < length <= limit && |more| < length ==>
                  Decode(data, limit, parse)
                  == Open(envelopes, Blemished(bodies, parse), WriteUint32(length) + more))
            && (0 < length <= limit && |more| >= length && parse(more[..length]) == Unreadable ==>
                  Decode(data, limit, parse) == Broken(envelopes, Blemished(bodies, parse)))
  {
    var tail := WriteUint32(length) + more;
    ReadableFramesDecode(bodies, tail, limit, parse);
    assert tail[..4] == WriteUint32(length);
    Uint32RoundTrip(length, WriteUint32(length));
    assert ReadUint32(tail) == length;
    var envelopes := EnvelopesOf(bodies, parse);
    assert envelopes + [] == envelopes;
    if 0 < length <= limit && |more| >= length { assert tail[4..length + 4] == more[..length]; }
  }

  /** Encoded bodies decode back to what the reader makes of each, in order, with nothing left over. */
  lemma FramesDecodeBack<E>(bodies: seq<seq<Byte>>, envelopes: seq<E>, limit: nat, parse: Parser<E>)
    requires InBounds(bodies, limit) && |envelopes| == |bodies|
    requires forall i :: 0 <= i < |bodies| ==> parse(bodies[i]) == Envelope(envelopes[i], false)
    ensures Decode(Frames(bodies), limit, parse) == Open(envelopes, 0, [])
  {
    hide Decode, Frames, EnvelopesOf, Blemished;
    ReadableFramesDecode(bodies, [], limit, parse);
    ReadWhole(bodies, envelopes, parse);
    assert Frames(bodies) + [] == Frames(bodies);
    NothingDecodes(limit, parse);
    assert envelopes + [] == envelopes;
  }

  lemma NothingDecodes<E>(limit: nat, parse: Parser<E>)
    ensures Decode([], limit, parse) == Open([], 0, [])
  {
  }

  lemma {:induction false} ReadWhole<E>(bodies: seq<seq<Byte>>, envelopes: seq<E>, parse: Parser<E>)
    requires |envelopes| == |bodies|
    requires forall i :: 0 <= i < |bodies| ==> parse(bodies[i]) == Envelope(envelopes[i], false)
    ensures EnvelopesOf(bodies, parse) == envelopes && Blemished(bodies, parse) == 0
  {
    if bodies != [] {
      ReadWhole(bodies[1..], envelopes[1..], parse);
      assert parse(bodies[0]) == Envelope(envelopes[0], false);
      assert [envelopes[0]] + envelopes[1..] == envelopes;
    }
  }

  /** Such a stream: one good frame and a length of zero, arriving together, return nothing at all. */
  lemma GoodFrameBeforeBreakIsLost<E>(body: seq<Byte>, envelope: E, limit: nat, parse: Parser<E>)
    requires 0 < |body| <= limit <= MAX_UINT32 && parse(body) == Envelope(envelope, false)
    ensures var chunk := Frame(body) + [0, 0, 0, 0];
            && Decode(chunk, limit, parse) == Broken([envelope], 0)
            && Pushed([chunk], limit, parse) == Broken([], 0)
  {
    hide Decode;
    var chunk: seq<Byte> := Frame(body) + [0, 0, 0, 0];
    OneFrameStream(body, envelope, limit, parse);
    StreamBreaksExactlyAt([body], 0, [], limit, parse);
    assert Decode(chunk, limit, parse) == Broken([envelope], 0);
    var nothing: seq<seq<Byte>> := [];
    assert [chunk][..0] == nothing && [] + chunk == chunk;
  }

  lemma OneFrameStream<E>(body: seq<Byte>, envelope: E, limit: nat, parse: Parser<E>)
    requires 0 < |body| <= limit <= MAX_UINT32 && parse(body) == Envelope(envelope, false)
    ensures InBounds([body], limit)
    ensures Frames([body]) + (WriteUint32(0) + []) == Frame(body) + [0, 0, 0, 0]
    ensures EnvelopesOf([body], parse) == [envelope] && Blemished([body], parse) == 0
  {
    ReadWhole([body], [envelope], parse);
    assert [body][1..] == [] && Frame(body) + [] == Frame(body);
    assert WriteUint32(0) + [] == [0, 0, 0, 0];
  }

  // ---------- the code ----------

  datatype EncodeResult = Encoded(frame: array<Byte>) | TooLong

  /** The frame is filled in place: four length bytes, then the body. */
  method EncodeFrame(body: seq<Byte>, limit: nat) returns (result: EncodeResult)
    ensures result.Encoded? <==> 0 < |body| <= limit && |body| <= MAX_UINT32
    ensures result.Encoded? ==> fresh(result.frame) && |body| <= MAX_UINT32 && result.frame[..] == Frame(body)
  {
    if |body| == 0 || |body| > limit || |body| > MAX_UINT32 { return TooLong; }
    var frame := new Byte[|body| + 4](_ => 0);
    var length := WriteUint32(|body|);
    frame[0], frame[1], frame[2], frame[3] := length[0], length[1], length[2], length[3];
    for i := 0 to |body|
      invariant frame[..4] == length
      invariant frame[4..i + 4] == body[..i]
    {
      frame[i + 4] := body[i];
    }
    assert frame[..] == frame[..4] + frame[4..];
    result := Encoded(frame);
  }

  /** The decoding loop over one buffer; `rest` is the buffer from the current offset on. */
  method Scan<E>(data: seq<Byte>, limit: nat, parse: Parser<E>) returns (result: Decoding<E>)
    ensures result == Decode(data, limit, parse)
  {
    var envelopes: seq<E> := [];
    var malformed := 0;
    var rest := data;
    AfterNothing(Decode(data, limit, parse));
    while |rest| >= 4
      invariant Decode(data, limit, parse) == After(envelopes, malformed, Decode(rest, limit, parse))
      decreases |rest|
    {
      var length := ReadUint32(rest);
      Stops(rest, limit, parse, envelopes, malformed);
      if length == 0 || length > limit { return Broken(envelopes, malformed); }
      if |rest| < length + 4 { break; }
      FrameStep(rest, limit, parse, envelopes, malformed);
      var read := parse(rest[4..length + 4]);
      rest := rest[length + 4..];
      if read.Unreadable? { return Broken(envelopes, malformed); }
      if read.NotEnvelope? {
        malformed := malformed + 1;
      } else {
        if read.sanitized { malformed := malformed + 1; }
        envelopes := envelopes + [read.envelope];
      }
    }
    Stops(rest, limit, parse, envelopes, malformed);
    result := Open(envelopes, malformed, rest);
  }

  datatype PushResult<+E> = Returned(envelopes: seq<E>) | Threw

  class FrameDecoder<!E> {
    var buffer: seq<Byte>
    var malformed: nat
    const limit: nat
    const parse: Parser<E>

    constructor (limit: nat, parse: Parser<E>)
      ensures buffer == [] && malformed == 0 && this.limit == limit && this.parse == parse
    {
      buffer, malformed := [], 0;
      this.limit, this.parse := limit, parse;
    }

    /** One arrival: the leftover and the chunk are decoded together, and what is unfinished is kept. */
    method Push(chunk: seq<Byte>) returns (result: PushResult<E>)
      requires Decode(buffer, limit, parse) == Open([], 0, buffer)
      modifies this`buffer, this`malformed
      ensures var now := Decode(old(buffer) + chunk, limit, parse);
              && malformed == old(malformed) + now.malformed
              && (now.Open? ==> result == Returned(now.envelopes) && buffer == now.rest)
              && (now.Broken? ==> result == Threw && buffer == [])
      ensures Decode(buffer, limit, parse) == Open([], 0, buffer) && |buffer| <= limit + 3
    {
      LeftoverIsUnfinished(buffer, limit, parse);
      if |chunk| == 0 {
        assert buffer + chunk == buffer;
        return Returned([]);
      }
      var data := if |buffer| == 0 then chunk else buffer + chunk;
      assert data == buffer + chunk;
      buffer := [];
      var now := Scan(data, limit, parse);
      malformed := malformed + now.malformed;
      if now.Broken? { return Threw; }
      LeftoverIsUnfinished(data, limit, parse);
      buffer := now.rest;
      result := Returned(now.envelopes);
    }
  }
}
