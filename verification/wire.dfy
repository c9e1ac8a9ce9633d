/**
 The byte formats of easyrpc/base/header.hpp as written by one side and read by the other.
 Integers are 32-bit unsigned and little-endian, as memcpy of the header structs lays them out.
 */
module Wire {

  type Byte = b: int | 0 <= b < 256
  type U32 = n: int | 0 <= n < 0x1_0000_0000
  type Bytes = seq<Byte>

  const TWO_TO_THE_32: int := 0x1_0000_0000
  const MAX_BUFFER_LEN: int := 8 * 1024 * 1024
  const REQUEST_HEADER_LEN: int := 12
  const RESPONSE_HEADER_LEN: int := 4

  // call_mode; the field may hold any other value as well
  const RAW: U32 := 0
  const NON_RAW: U32 := 1

  datatype Result<+T> = Ok(value: T) | Error(message: string)

  datatype RequestHeader = RequestHeader(protocolLen: U32, bodyLen: U32, mode: U32)

  /** static_cast<unsigned int> of a size. */
  function CastU32(n: nat): U32 { n % TWO_TO_THE_32 }

  /** Addition of unsigned int. */
  function AddU32(a: U32, b: U32): U32 { (a + b) % TWO_TO_THE_32 }

  // ---- 32-bit fields ----

  function EncodeU32(n: U32): (r: Bytes)
    ensures |r| == 4
  {
    var m: int := n;
    [m % 256, (m / 256) % 256, (m / 65536) % 256, m / 16777216]
  }

  function DecodeU32(s: Bytes): U32
    requires |s| == 4
  {
    var b0: int, b1: int, b2: int, b3: int := s[0], s[1], s[2], s[3];
    b0 + 256 * b1 + 65536 * b2 + 16777216 * b3
  }

  lemma DecodeInvertsEncode(n: U32)
    ensures DecodeU32(EncodeU32(n)) == n
  {
    var m: int := n;
    var q1, q2, q3 := m / 256, m / 65536, m / 16777216;
    assert q2 == q1 / 256 && q3 == q2 / 256;
    assert m == 256 * q1 + m % 256 && q1 == 256 * q2 + q1 % 256 && q2 == 256 * q3 + q2 % 256;
  }

  lemma EncodeInvertsDecode(s: Bytes)
    requires |s| == 4
    ensures EncodeU32(DecodeU32(s)) == s
  {
    var m: int, b1: int, b2: int, b3: int := DecodeU32(s), s[1], s[2], s[3];
    assert m / 256 == b1 + 256 * b2 + 65536 * b3;
    assert m / 65536 == b2 + 256 * b3;
    assert m / 16777216 == b3;
  }

  lemma U32RoundTrip(n: U32, s: Bytes)
    requires |s| == 4
    ensures DecodeU32(EncodeU32(n)) == n
    ensures EncodeU32(DecodeU32(s)) == s
  {
    DecodeInvertsEncode(n);
    EncodeInvertsDecode(s);
  }

  function EncodeRequestHeader(h: RequestHeader): (r: Bytes)
    ensures |r| == REQUEST_HEADER_LEN
  {
    EncodeU32(h.protocolLen) + EncodeU32(h.bodyLen) + EncodeU32(h.mode)
  }

  function DecodeRequestHeader(s: Bytes): RequestHeader
    requires |s| == REQUEST_HEADER_LEN
  {
    RequestHeader(DecodeU32(s[..4]), DecodeU32(s[4..8]), DecodeU32(s[8..]))
  }

  lemma HeaderRoundTrip(h: RequestHeader, s: Bytes)
    requires |s| == REQUEST_HEADER_LEN
    ensures DecodeRequestHeader(EncodeRequestHeader(h)) == h
    ensures EncodeRequestHeader(DecodeRequestHeader(s)) == s
  {
    U32RoundTrip(h.protocolLen, s[..4]);
    U32RoundTrip(h.bodyLen, s[4..8]);
    U32RoundTrip(h.mode, s[8..]);
    var r := EncodeRequestHeader(h);
    assert r[..4] == EncodeU32(h.protocolLen) && r[4..8] == EncodeU32(h.bodyLen) && r[8..] == EncodeU32(h.mode);
    assert s == s[..4] + s[4..8] + s[8..];
  }

  // ---- requests ----

  /** rpc_session::write, lines 78-89 of easyrpc/client/rpc_session.hpp. */
  function EncodeRequest(protocol: Bytes, mode: U32, body: Bytes): Result<Bytes> {
    var protocolLen, bodyLen := CastU32(|protocol|), CastU32(|body|);
    if AddU32(protocolLen, bodyLen) > MAX_BUFFER_LEN then Error("Send data is too big")
    else Ok(EncodeRequestHeader(RequestHeader(protocolLen, bodyLen, mode)) + protocol + body)
  }

  /** What the server makes of the bytes received so far; `rest` stays unread in the socket. */
  datatype Decoded =
    | NeedMore
    | Rejected
    | Overflowed  // the lengths sum to 2^32 or more but wrap to an accepted sum
    | Routed(protocol: Bytes, mode: U32, body: Bytes, rest: Bytes)

  /** connection::check_head, lines 95-100 of easyrpc/server/connection.hpp. */
  predicate CheckHead(h: RequestHeader) {
    var len := AddU32(h.protocolLen, h.bodyLen);
    len > 0 && len < MAX_BUFFER_LEN
  }

  /** One-shot reading of a request from a byte stream. */
  function Decode(stream: Bytes): Decoded {
    if |stream| < REQUEST_HEADER_LEN then NeedMore
    else
      var h := DecodeRequestHeader(stream[..REQUEST_HEADER_LEN]);
      var tail := stream[REQUEST_HEADER_LEN..];
      if !CheckHead(h) then Rejected
      else if |tail| < AddU32(h.protocolLen, h.bodyLen) then NeedMore
      else if h.protocolLen + h.bodyLen >= TWO_TO_THE_32 then Overflowed
      else Routed(tail[..h.protocolLen], h.mode, tail[h.protocolLen..h.protocolLen + h.bodyLen],
                  tail[h.protocolLen + h.bodyLen..])
  }

  function LittleEndian(a: int, b: int, c: int, d: int): int { a + 256 * b + 65536 * c + 16777216 * d }

  /** The lengths that a header announces: three little-endian fields of four bytes, in this order. */
  lemma HeaderLayout(s: Bytes)
    requires |s| == 12
    ensures var h := DecodeRequestHeader(s);
            && h.protocolLen == LittleEndian(s[0], s[1], s[2], s[3])
            && h.bodyLen == LittleEndian(s[4], s[5], s[6], s[7])
            && h.mode == LittleEndian(s[8], s[9], s[10], s[11])
  {
    assert s[..4] == [s[0], s[1], s[2], s[3]] && s[4..8] == [s[4], s[5], s[6], s[7]];
    assert s[8..] == [s[8], s[9], s[10], s[11]];
  }

  /** The length that the server computes: an unsigned int. */
  function Announced(h: RequestHeader): nat { (h.protocolLen + h.bodyLen) % 0x1_0000_0000 }

  /**
   Whatever a peer sends: with fewer than 12 bytes the server waits; a header whose lengths sum to 0 or to
   8 MiB or more is refused, and no other; a request is routed exactly when all of its bytes are in, as
   the bytes at their places.
   */
  lemma DecodeMeaning(stream: Bytes)
    ensures |stream| < 12 ==> Decode(stream) == NeedMore
    ensures |stream| >= 12 ==>
              var h := DecodeRequestHeader(stream[..12]);
              var n := Announced(h);
              && (Decode(stream) == Rejected <==> n == 0 || n >= 8388608)
              && (Decode(stream) == NeedMore <==> 0 < n < 8388608 && |stream| < 12 + n)
              && (Decode(stream).Routed? <==>
                    0 < n < 8388608 && |stream| >= 12 + n && h.protocolLen + h.bodyLen < 0x1_0000_0000)
              && (Decode(stream).Routed? ==>
                    var p := 12 + h.protocolLen;
                    Decode(stream) == Routed(stream[12..p], h.mode, stream[p..12 + n], stream[12 + n..]))
  {
    if |stream| >= 12 {
      var h := DecodeRequestHeader(stream[..12]);
      if Decode(stream).Routed? {
        NoWrap(h.protocolLen, h.bodyLen);
        PiecesInPlace(stream, h.protocolLen, h.bodyLen);
      }
    }
  }

  lemma PiecesInPlace(stream: Bytes, m: nat, n: nat)
    requires 12 + m + n <= |stream|
    ensures var tail := stream[12..];
            && tail[..m] == stream[12..12 + m] && tail[m..m + n] == stream[12 + m..12 + m + n]
            && tail[m + n..] == stream[12 + m + n..]
  {
  }

  /** The client sends exactly when the total length, taken modulo 2^32, is at most 8 MiB. */
  lemma ClientSendsIff(protocol: Bytes, mode: U32, body: Bytes)
    ensures EncodeRequest(protocol, mode, body).Ok? <==> (|protocol| + |body|) % TWO_TO_THE_32 <= MAX_BUFFER_LEN
    ensures |protocol| + |body| < TWO_TO_THE_32 ==>
              (EncodeRequest(protocol, mode, body).Ok? <==> |protocol| + |body| <= MAX_BUFFER_LEN)
  {
    SumOfCasts(|protocol|, |body|);
  }

  lemma SumOfCasts(a: nat, b: nat)
    ensures AddU32(CastU32(a), CastU32(b)) == (a + b) % TWO_TO_THE_32
  {
    var qa, qb, q := a / TWO_TO_THE_32, b / TWO_TO_THE_32, (CastU32(a) + CastU32(b)) / TWO_TO_THE_32;
    assert a + b == TWO_TO_THE_32 * (qa + qb + q) + AddU32(CastU32(a), CastU32(b));
  }

  /**
   What the server makes of a request sent by the client, however many further bytes follow: the
   same triple with the further bytes unread exactly when the total length is above 0 and below
   8 MiB; a request of total length 0 or of exactly 8 MiB is sent by the client but rejected.
   */
  lemma RequestRoundTrip(protocol: Bytes, mode: U32, body: Bytes, rest: Bytes)
    requires |protocol| + |body| < TWO_TO_THE_32
    requires EncodeRequest(protocol, mode, body).Ok?
    ensures var len, frame := |protocol| + |body|, EncodeRequest(protocol, mode, body).value;
            Decode(frame + rest) == if 0 < len < MAX_BUFFER_LEN then Routed(protocol, mode, body, rest) else Rejected
  {
    FrameParts(protocol, mode, body, rest);
    NoWrap(|protocol|, |body|);
    Pieces(protocol, body, rest);
  }

  lemma Pieces(protocol: Bytes, body: Bytes, rest: Bytes)
    ensures var tail, n := protocol + body + rest, |protocol| + |body|;
            tail[..|protocol|] == protocol && tail[|protocol|..n] == body && tail[n..] == rest
  {
  }

  lemma FrameParts(protocol: Bytes, mode: U32, body: Bytes, rest: Bytes)
    requires |protocol| + |body| < TWO_TO_THE_32 && EncodeRequest(protocol, mode, body).Ok?
    ensures var frame := EncodeRequest(protocol, mode, body).value;
            && |frame| == REQUEST_HEADER_LEN + |protocol| + |body|
            && DecodeRequestHeader((frame + rest)[..REQUEST_HEADER_LEN]) == RequestHeader(|protocol|, |body|, mode)
            && (frame + rest)[REQUEST_HEADER_LEN..] == protocol + body + rest
  {
    var h := RequestHeader(|protocol|, |body|, mode);
    var head := EncodeRequestHeader(h);
    HeaderRoundTrip(h, head);
    HeadAndTail(head, protocol, body, rest);
    NoWrap(|protocol|, |body|);
  }

  lemma HeadAndTail(head: Bytes, protocol: Bytes, body: Bytes, rest: Bytes)
    requires |head| == REQUEST_HEADER_LEN
    ensures var all := head + protocol + body + rest;
            all[..REQUEST_HEADER_LEN] == head && all[REQUEST_HEADER_LEN..] == protocol + body + rest
  {
    assert head + protocol + body + rest == head + (protocol + body + rest);
  }

  lemma NoWrap(a: nat, b: nat)
    requires a + b < TWO_TO_THE_32
    ensures CastU32(a) == a && CastU32(b) == b && AddU32(a, b) == a + b
  {
  }

  /** No proper prefix of a frame is taken for a whole request. */
  lemma PrefixNeedsMore(protocol: Bytes, mode: U32, body: Bytes, n: nat)
    requires 0 < |protocol| + |body| < MAX_BUFFER_LEN
    requires n < REQUEST_HEADER_LEN + |protocol| + |body|
    ensures var r := EncodeRequest(protocol, mode, body);
            r.Ok? && |r.value| == REQUEST_HEADER_LEN + |protocol| + |body| && Decode(r.value[..n]) == NeedMore
  {
    NoWrap(|protocol|, |body|);
    FrameParts(protocol, mode, body, []);
    var frame := EncodeRequest(protocol, mode, body).value;
    assert frame + [] == frame;
    if n >= REQUEST_HEADER_LEN {
      PrefixOfPrefix(frame, n);
    }
  }

  lemma PrefixOfPrefix(s: Bytes, n: nat)
    requires REQUEST_HEADER_LEN <= n <= |s|
    ensures s[..n][..REQUEST_HEADER_LEN] == s[..REQUEST_HEADER_LEN]
  {
  }

  // ---- writing ----

  /** What boost::asio::write puts on the wire when the connection takes `taken` bytes; fewer than all are an error. */
  function Taken(frame: Bytes, taken: nat): (r: Bytes)
    ensures r <= frame && (r == frame <==> taken >= |frame|)
  {
    if taken < |frame| then frame[..taken] else frame
  }

  // ---- responses ----

  /** connection::write, lines 44-54 of easyrpc/server/connection.hpp. */
  function EncodeResponse(body: Bytes): Result<Bytes> {
    var bodyLen := CastU32(|body|);
    if bodyLen > MAX_BUFFER_LEN then Error("Send data is too big")
    else Ok(EncodeU32(bodyLen) + body)
  }

  /** What rpc_session::read makes of all bytes that arrive before the stream ends. */
  datatype Response = EndOfStream | TooBig | Body(body: Bytes, rest: Bytes)

  /** rpc_session::read, lines 112-151 of easyrpc/client/rpc_session.hpp. */
  function DecodeResponse(stream: Bytes): Response {
    if |stream| < RESPONSE_HEADER_LEN then EndOfStream
    else
      var bodyLen := DecodeU32(stream[..RESPONSE_HEADER_LEN]);
      var tail := stream[RESPONSE_HEADER_LEN..];
      if bodyLen > MAX_BUFFER_LEN then TooBig
      else if |tail| < bodyLen then EndOfStream
      else Body(tail[..bodyLen], tail[bodyLen..])
  }

  /**
   The client's header check never refuses a response that the server sent, and reading inverts
   writing exactly for bodies below 2^32 bytes, beyond which the length field wraps.
   */
  lemma ResponseRoundTrip(body: Bytes, rest: Bytes)
    requires EncodeResponse(body).Ok?
    ensures var r := DecodeResponse(EncodeResponse(body).value + rest);
            && r.Body?
            && r.body + r.rest == body + rest
            && (r == Body(body, rest) <==> |body| < TWO_TO_THE_32)
  {
    var stream := EncodeResponse(body).value + rest;
    U32RoundTrip(CastU32(|body|), stream[..4]);
    assert stream[..4] == EncodeU32(CastU32(|body|));
    assert stream[4..] == body + rest;
    if |body| < TWO_TO_THE_32 {
      assert stream[4..][..|body|] == body && stream[4..][|body|..] == rest;
    }
  }

  /** A response of which only a part was written is never taken for a response: the client sees the stream end. */
  lemma ReplyCutShort(body: Bytes, n: nat)
    requires EncodeResponse(body).Ok? && |body| < TWO_TO_THE_32 && n < |EncodeResponse(body).value|
    ensures DecodeResponse(EncodeResponse(body).value[..n]) == EndOfStream
  {
    var frame := EncodeResponse(body).value;
    if n >= RESPONSE_HEADER_LEN {
      assert frame[..n][..RESPONSE_HEADER_LEN] == EncodeU32(CastU32(|body|));
      U32RoundTrip(CastU32(|body|), frame[..RESPONSE_HEADER_LEN]);
    }
  }

  /**
   Whatever a server sends: the client reads a body exactly when a length of at most 8 MiB and that many
   bytes are in, and gives up on a greater length.
   */
  lemma DecodeResponseMeaning(stream: Bytes)
    ensures |stream| < 4 ==> DecodeResponse(stream) == EndOfStream
    ensures |stream| >= 4 ==>
              var n := LittleEndian(stream[0], stream[1], stream[2], stream[3]);
              && (DecodeResponse(stream) == TooBig <==> n > 8388608)
              && (DecodeResponse(stream) == EndOfStream <==> n <= 8388608 && |stream| < 4 + n)
              && (DecodeResponse(stream).Body? ==>
                    DecodeResponse(stream) == Body(stream[4..4 + n], stream[4 + n..]))
  {
    if |stream| >= 4 {
      assert stream[..4] == [stream[0], stream[1], stream[2], stream[3]];
      var n: int := DecodeU32(stream[..4]);
      if |stream| >= 4 + n {
        assert stream[4..][..n] == stream[4..4 + n] && stream[4..][n..] == stream[4 + n..];
      }
    }
  }

  /** A response of which a beginning is in is read exactly when all of its bytes are. */
  lemma ResponseArrives(stream: Bytes, n: nat)
    requires DecodeResponse(stream).Body? && n <= |stream|
    ensures var body := DecodeResponse(stream).body;
            if n >= 4 + |body| then DecodeResponse(stream[..n]).Body? && DecodeResponse(stream[..n]).body == body
            else DecodeResponse(stream[..n]) == EndOfStream
  {
    var body, part := DecodeResponse(stream).body, stream[..n];
    if n >= 4 {
      assert part[..4] == stream[..4];
      if n >= 4 + |body| {
        assert part[4..][..|body|] == stream[4..][..|body|];
      }
    }
  }

  /** And what is read from a beginning is what the whole stream holds. */
  lemma ResponseOfPrefix(stream: Bytes, n: nat)
    requires n <= |stream| && DecodeResponse(stream[..n]).Body?
    ensures DecodeResponse(stream).Body? && DecodeResponse(stream).body == DecodeResponse(stream[..n]).body
  {
    var body, part := DecodeResponse(stream[..n]).body, stream[..n];
    assert part[..4] == stream[..4];
    assert part[4..][..|body|] == stream[4..][..|body|];
  }

  /** Server and client agree on the body lengths a response may have: 0 to 8 MiB inclusive. */
  lemma ResponseAgreement(body: Bytes, n: U32, tail: Bytes)
    requires |body| < TWO_TO_THE_32
    ensures EncodeResponse(body).Ok? <==> |body| <= MAX_BUFFER_LEN
    ensures DecodeResponse(EncodeU32(n) + tail) == TooBig <==> n > MAX_BUFFER_LEN
  {
    var stream := EncodeU32(n) + tail;
    U32RoundTrip(n, stream[..4]);
    assert stream[..4] == EncodeU32(n);
  }
}
