/**
 The two-stage request reader of easyrpc/server/connection.hpp: `read_head` fills the 12-byte
 header buffer, `check_head` decides, `read_protocol_and_body` fills a buffer of the announced
 size and hands the pieces on.  The bytes may arrive in any pieces.
 */
module Reader {
  import opened Wire

  /** A pending read with what it holds so far, or the outcome of the last handler. */
  datatype ReaderState =
    | Head(buffer: Bytes)
    | ProtocolAndBody(header: RequestHeader, buffer: Bytes)
    | Finished(outcome: Decoded)

  function Needed(h: RequestHeader): nat { AddU32(h.protocolLen, h.bodyLen) }

  /** The handler of read_protocol_and_body, 124-126, once its buffer is full. */
  function Split(h: RequestHeader, buffer: Bytes, unread: Bytes): Decoded
    requires |buffer| == Needed(h)
  {
    if h.protocolLen + h.bodyLen >= TWO_TO_THE_32 then Overflowed
    else Routed(buffer[..h.protocolLen], h.mode, buffer[h.protocolLen..], unread)
  }

  function FeedBody(h: RequestHeader, buffer: Bytes, chunk: Bytes): ReaderState
    requires |buffer| < Needed(h)
  {
    var missing := Needed(h) - |buffer|;
    if |chunk| < missing then ProtocolAndBody(h, buffer + chunk)
    else Finished(Split(h, buffer + chunk[..missing], chunk[missing..]))
  }

  predicate WellFormed(r: ReaderState) {
    match r
    case Head(buffer) => |buffer| < REQUEST_HEADER_LEN
    case ProtocolAndBody(h, buffer) => CheckHead(h) && |buffer| < Needed(h)
    case Finished(outcome) => outcome != NeedMore
  }

  /** The bytes `chunk` arrive while the reader is in state `r`. */
  function Feed(r: ReaderState, chunk: Bytes): ReaderState
    requires WellFormed(r)
  {
    match r
    case Head(buffer) =>
      var missing := REQUEST_HEADER_LEN - |buffer|;
      if |chunk| < missing then Head(buffer + chunk)
      else
        var h := DecodeRequestHeader(buffer + chunk[..missing]);
        if CheckHead(h) then FeedBody(h, [], chunk[missing..]) else Finished(Rejected)
    case ProtocolAndBody(h, buffer) => FeedBody(h, buffer, chunk)
    case Finished(Routed(protocol, mode, body, unread)) => Finished(Routed(protocol, mode, body, unread + chunk))
    case Finished(_) => r
  }

  /** The state in which one single chunk leaves a new reader. */
  function ReaderOf(stream: Bytes): (r: ReaderState)
    ensures WellFormed(r)
  {
    Feed(Head([]), stream)
  }

  function Outcome(r: ReaderState): Decoded {
    if r.Finished? then r.outcome else NeedMore
  }

  /** The two stages together do what one-shot decoding does. */
  lemma OneChunkIsDecode(stream: Bytes)
    ensures Outcome(ReaderOf(stream)) == Decode(stream)
  {
    if |stream| >= REQUEST_HEADER_LEN {
      var h := DecodeRequestHeader(stream[..REQUEST_HEADER_LEN]);
      assert [] + stream[..REQUEST_HEADER_LEN] == stream[..REQUEST_HEADER_LEN];
      if CheckHead(h) {
        OneChunkBody(h, stream[REQUEST_HEADER_LEN..]);
      }
    }
  }

  /** What both make of the bytes behind an accepted header. */
  lemma OneChunkBody(h: RequestHeader, tail: Bytes)
    requires CheckHead(h)
    ensures Outcome(FeedBody(h, [], tail)) ==
            if |tail| < Needed(h) then NeedMore
            else if h.protocolLen + h.bodyLen >= TWO_TO_THE_32 then Overflowed
            else Routed(tail[..h.protocolLen], h.mode, tail[h.protocolLen..h.protocolLen + h.bodyLen],
                        tail[h.protocolLen + h.bodyLen..])
  {
    if |tail| >= Needed(h) {
      var buffer := tail[..Needed(h)];
      assert [] + buffer == buffer;
      if h.protocolLen + h.bodyLen < TWO_TO_THE_32 {
        NoWrap(h.protocolLen, h.bodyLen);
        assert buffer[..h.protocolLen] == tail[..h.protocolLen];
        assert buffer[h.protocolLen..] == tail[h.protocolLen..Needed(h)];
      }
    }
  }

  /** Feeding twice is feeding the concatenation, so where the stream is cut does not matter. */
  lemma FeedTwice(r: ReaderState, a: Bytes, b: Bytes)
    requires WellFormed(r)
    ensures WellFormed(Feed(r, a)) && Feed(Feed(r, a), b) == Feed(r, a + b)
  {
    match r
    case Head(buffer) => FeedHeadTwice(buffer, a, b);
    case ProtocolAndBody(h, buffer) => FeedBodyTwice(h, buffer, a, b);
    case Finished(Routed(_, _, _, unread)) => assert (unread + a) + b == unread + (a + b);
    case Finished(_) =>
  }

  /** The first `n` bytes of two pieces, when the first piece is shorter. */
  lemma CutFirst(buffer: Bytes, a: Bytes, b: Bytes, n: nat)
    requires |a| < n <= |a| + |b|
    ensures buffer + (a + b)[..n] == (buffer + a) + b[..n - |a|]
    ensures (a + b)[n..] == b[n - |a|..]
  {
    assert (a + b)[..n] == a + b[..n - |a|];
    assert buffer + (a + b[..n - |a|]) == (buffer + a) + b[..n - |a|];
  }

  lemma FeedHeadTwice(buffer: Bytes, a: Bytes, b: Bytes)
    requires |buffer| < REQUEST_HEADER_LEN
    ensures WellFormed(Feed(Head(buffer), a)) && Feed(Feed(Head(buffer), a), b) == Feed(Head(buffer), a + b)
  {
    if |a| < REQUEST_HEADER_LEN - |buffer| {
      CutInHead(buffer, a, b);
    } else {
      CutBehindHead(buffer, a, b);
    }
  }

  lemma CutInHead(buffer: Bytes, a: Bytes, b: Bytes)
    requires |buffer| + |a| < REQUEST_HEADER_LEN
    ensures Feed(Head(buffer + a), b) == Feed(Head(buffer), a + b)
  {
    var missing := REQUEST_HEADER_LEN - |buffer|;
    assert (buffer + a) + b == buffer + (a + b);
    if |a| + |b| >= missing {
      CutFirst(buffer, a, b, missing);
    }
  }

  lemma CutBehindHead(buffer: Bytes, a: Bytes, b: Bytes)
    requires |buffer| < REQUEST_HEADER_LEN <= |buffer| + |a|
    ensures WellFormed(Feed(Head(buffer), a)) && Feed(Feed(Head(buffer), a), b) == Feed(Head(buffer), a + b)
  {
    var missing := REQUEST_HEADER_LEN - |buffer|;
    assert (a + b)[..missing] == a[..missing] && (a + b)[missing..] == a[missing..] + b;
    var h := DecodeRequestHeader(buffer + a[..missing]);
    if CheckHead(h) {
      FeedBodyTwice(h, [], a[missing..], b);
    }
  }

  lemma FeedBodyTwice(h: RequestHeader, buffer: Bytes, a: Bytes, b: Bytes)
    requires CheckHead(h) && |buffer| < Needed(h)
    ensures Feed(FeedBody(h, buffer, a), b) == FeedBody(h, buffer, a + b)
  {
    var missing := Needed(h) - |buffer|;
    if |a| < missing {
      assert (buffer + a) + b == buffer + (a + b);
      if |a| + |b| >= missing {
        CutFirst(buffer, a, b, missing);
      }
    } else {
      assert (a + b)[..missing] == a[..missing] && (a + b)[missing..] == a[missing..] + b;
    }
  }

  function Concat(chunks: seq<Bytes>): Bytes {
    if chunks == [] then [] else Concat(chunks[..|chunks| - 1]) + chunks[|chunks| - 1]
  }

  function FeedAll(chunks: seq<Bytes>): (r: ReaderState)
    ensures WellFormed(r)
  {
    if chunks == [] then Head([])
    else
      var r := FeedAll(chunks[..|chunks| - 1]);
      FeedTwice(r, chunks[|chunks| - 1], []);
      Feed(r, chunks[|chunks| - 1])
  }

  /** However the stream is fragmented, the outcome is that of decoding it in one piece. */
  lemma {:induction false} FragmentationIndependence(chunks: seq<Bytes>)
    ensures FeedAll(chunks) == ReaderOf(Concat(chunks))
    ensures Outcome(FeedAll(chunks)) == Decode(Concat(chunks))
  {
    if chunks != [] {
      var init := chunks[..|chunks| - 1];
      FragmentationIndependence(init);
      FeedTwice(Head([]), Concat(init), chunks[|chunks| - 1]);
    }
    OneChunkIsDecode(Concat(chunks));
  }

  /** The buffers of one connection; `head` and `protocolAndBody` are filled in place. */
  class RequestReader {
    const head: array<Byte>
    var filled: nat
    var inBody: bool
    var reqHead: RequestHeader
    var protocolAndBody: array<Byte>
    var outcome: Decoded

    ghost predicate Valid()
      reads this, head, protocolAndBody
    {
      && head.Length == REQUEST_HEADER_LEN && head != protocolAndBody
      && (outcome == NeedMore ==>
            if inBody then CheckHead(reqHead) && protocolAndBody.Length == Needed(reqHead) && filled < Needed(reqHead)
            else filled < REQUEST_HEADER_LEN)
    }

    ghost function Contents(): (r: ReaderState)
      reads this, head, protocolAndBody
      requires Valid()
      ensures WellFormed(r)
    {
      if outcome != NeedMore then Finished(outcome)
      else if inBody then ProtocolAndBody(reqHead, protocolAndBody[..filled])
      else Head(head[..filled])
    }

    constructor ()
      ensures Valid() && Contents() == Head([]) && fresh(head) && fresh(protocolAndBody)
    {
      head := new Byte[REQUEST_HEADER_LEN](_ => 0);
      protocolAndBody := new Byte[0];
      filled, inBody, outcome := 0, false, NeedMore;
      reqHead := RequestHeader(0, 0, 0);
    }

    /** Handler of read_head, 81-92, with check_head and the resize of 104-105. */
    method HeadRead()
      requires head.Length == REQUEST_HEADER_LEN && outcome == NeedMore && !inBody && head != protocolAndBody
      modifies this
      ensures Valid() && unchanged(head)
      ensures protocolAndBody == old(protocolAndBody) || fresh(protocolAndBody)
      ensures var h := DecodeRequestHeader(head[..]);
              Contents() == if CheckHead(h) then ProtocolAndBody(h, []) else Finished(Rejected)
      ensures var n := Announced(DecodeRequestHeader(head[..]));
              if 0 < n < 8388608 then inBody && outcome == NeedMore && protocolAndBody.Length == n
              else outcome == Rejected
    {
      reqHead := DecodeRequestHeader(head[..]);
      if CheckHead(reqHead) {
        var size := AddU32(reqHead.protocolLen, reqHead.bodyLen);
        protocolAndBody := new Byte[size](_ => 0);
        filled, inBody := 0, true;
      } else {
        outcome := Rejected;
      }
    }

    /** Handler of read_protocol_and_body, 124-126. */
    method BodyRead(unread: Bytes)
      requires protocolAndBody.Length == Needed(reqHead) && CheckHead(reqHead) && head.Length == REQUEST_HEADER_LEN
      requires head != protocolAndBody
      modifies this`outcome
      ensures Valid() && outcome == Split(reqHead, protocolAndBody[..], unread)
    {
      if reqHead.protocolLen + reqHead.bodyLen >= TWO_TO_THE_32 {
        outcome := Overflowed;
      } else {
        outcome := Routed(protocolAndBody[..reqHead.protocolLen], reqHead.mode,
                          protocolAndBody[reqHead.protocolLen..], unread);
      }
    }

    /** One byte goes to the header buffer; a full buffer runs the handler. */
    method ReceiveHeadByte(b: Byte, ghost unread: Bytes)
      requires Valid() && outcome == NeedMore && !inBody
      modifies this, head
      ensures Valid() && (protocolAndBody == old(protocolAndBody) || fresh(protocolAndBody))
      ensures outcome == NeedMore ==> Contents() == Feed(old(Contents()), [b])
      ensures outcome != NeedMore ==> Contents() == Feed(old(Contents()), [b] + unread)
    {
      ghost var buffer := head[..filled];
      FeedHeadByte(buffer, b, unread);
      head[filled] := b;
      filled := filled + 1;
      assert head[..filled] == buffer + [b];
      if filled == head.Length {
        assert head[..] == buffer + [b];
        HeadRead();
        assert protocolAndBody[..0] == [];
      }
    }

    /** One byte goes to the second buffer; a full buffer runs the handler. */
    method ReceiveBodyByte(b: Byte, unread: Bytes)
      requires Valid() && outcome == NeedMore && inBody
      modifies this, protocolAndBody
      ensures Valid() && protocolAndBody == old(protocolAndBody)
      ensures outcome == NeedMore ==> Contents() == Feed(old(Contents()), [b])
      ensures outcome != NeedMore ==> Contents() == Feed(old(Contents()), [b] + unread)
    {
      ghost var buffer := protocolAndBody[..filled];
      FeedBodyByte(reqHead, buffer, b, unread);
      protocolAndBody[filled] := b;
      filled := filled + 1;
      assert protocolAndBody[..filled] == buffer + [b];
      if filled == protocolAndBody.Length {
        assert protocolAndBody[..] == buffer + [b];
        BodyRead(unread);
      }
    }

    /** One byte goes to the buffer of the pending read; `unread` is behind it in the socket. */
    method ReceiveByte(b: Byte, unread: Bytes)
      requires Valid() && outcome == NeedMore
      modifies this, head, protocolAndBody
      ensures Valid()
      ensures protocolAndBody == old(protocolAndBody) || fresh(protocolAndBody)
      ensures Contents() == Feed(old(Contents()), if outcome != NeedMore then [b] + unread else [b])
    {
      if inBody {
        ReceiveBodyByte(b, unread);
      } else {
        ReceiveHeadByte(b, unread);
      }
    }

    /** The socket delivers `chunk`; each byte goes to the buffer of the pending read. */
    method Receive(chunk: Bytes)
      requires Valid() && outcome == NeedMore
      modifies this, head, protocolAndBody
      ensures Valid()
      ensures protocolAndBody == old(protocolAndBody) || fresh(protocolAndBody)
      ensures Contents() == Feed(old(Contents()), chunk)
    {
      ghost var start, now := Contents(), Contents();
      var i := 0;
      FeedNothing(start);
      while i < |chunk| && outcome == NeedMore
        invariant i <= |chunk| && Valid() && now == Contents()
        invariant protocolAndBody == old(protocolAndBody) || fresh(protocolAndBody)
        invariant HasConsumed(start, chunk, if outcome == NeedMore then i else |chunk|, now)
        decreases |chunk| - i
      {
        ghost var before := now;
        ReceiveByte(chunk[i], chunk[i + 1..]);
        now := Contents();
        ConsumeByte(start, chunk, i, before, now, outcome != NeedMore);
        i := i + 1;
      }
      assert chunk[..|chunk|] == chunk;
    }
  }

  /** However the stream is cut, the reader refuses exactly a header whose lengths sum to 0 or to 8 MiB or more. */
  lemma RefusesIff(chunks: seq<Bytes>)
    ensures var stream := Concat(chunks);
            Outcome(FeedAll(chunks)) == Rejected <==>
            |stream| >= 12 && var n := Announced(DecodeRequestHeader(stream[..12])); n == 0 || n >= 8388608
  {
    FragmentationIndependence(chunks);
    DecodeMeaning(Concat(chunks));
  }

  /** `now` is what `start` becomes when the first `i` bytes of `chunk` have arrived. */
  ghost predicate HasConsumed(start: ReaderState, chunk: Bytes, i: nat, now: ReaderState) {
    i <= |chunk| && WellFormed(start) && now == Feed(start, chunk[..i])
  }

  lemma ConsumeByte(start: ReaderState, chunk: Bytes, i: nat, before: ReaderState, now: ReaderState, done: bool)
    requires i < |chunk| && HasConsumed(start, chunk, i, before) && WellFormed(before)
    requires now == Feed(before, if done then [chunk[i]] + chunk[i + 1..] else [chunk[i]])
    ensures HasConsumed(start, chunk, if done then |chunk| else i + 1, now)
  {
    if done {
      FeedFromByte(start, chunk, i);
      assert chunk[..|chunk|] == chunk;
    } else {
      FeedNextByte(start, chunk, i);
    }
  }

  lemma FeedHeadByte(buffer: Bytes, b: Byte, unread: Bytes)
    requires |buffer| < REQUEST_HEADER_LEN
    ensures |buffer| + 1 < REQUEST_HEADER_LEN ==> Feed(Head(buffer), [b]) == Head(buffer + [b])
    ensures |buffer| + 1 == REQUEST_HEADER_LEN ==>
              var h := DecodeRequestHeader(buffer + [b]);
              if CheckHead(h) then Feed(Head(buffer), [b]) == ProtocolAndBody(h, [])
              else Feed(Head(buffer), [b] + unread) == Finished(Rejected)
  {
    if |buffer| + 1 == REQUEST_HEADER_LEN {
      assert ([b] + unread)[..1] == [b] && [b][..1] == [b] && [b][1..] == [];
    }
  }

  lemma FeedBodyByte(h: RequestHeader, buffer: Bytes, b: Byte, unread: Bytes)
    requires CheckHead(h) && |buffer| < Needed(h)
    ensures |buffer| + 1 < Needed(h) ==> Feed(ProtocolAndBody(h, buffer), [b]) == ProtocolAndBody(h, buffer + [b])
    ensures |buffer| + 1 == Needed(h) ==>
              Feed(ProtocolAndBody(h, buffer), [b] + unread) == Finished(Split(h, buffer + [b], unread))
  {
    if |buffer| + 1 == Needed(h) {
      assert ([b] + unread)[..1] == [b] && ([b] + unread)[1..] == unread;
    }
  }

  lemma FeedNextByte(r: ReaderState, chunk: Bytes, i: nat)
    requires WellFormed(r) && i < |chunk|
    ensures WellFormed(Feed(r, chunk[..i])) && Feed(Feed(r, chunk[..i]), [chunk[i]]) == Feed(r, chunk[..i + 1])
  {
    FeedTwice(r, chunk[..i], [chunk[i]]);
    assert chunk[..i] + [chunk[i]] == chunk[..i + 1];
  }

  lemma FeedFromByte(r: ReaderState, chunk: Bytes, i: nat)
    requires WellFormed(r) && i < |chunk|
    ensures WellFormed(Feed(r, chunk[..i])) && Feed(Feed(r, chunk[..i]), [chunk[i]] + chunk[i + 1..]) == Feed(r, chunk)
  {
    FeedTwice(r, chunk[..i], [chunk[i]] + chunk[i + 1..]);
    assert chunk[..i] + ([chunk[i]] + chunk[i + 1..]) == chunk;
  }

  lemma FeedNothing(r: ReaderState)
    requires WellFormed(r)
    ensures Feed(r, []) == r
  {
    match r
    case Head(buffer) => assert buffer + [] == buffer;
    case ProtocolAndBody(_, buffer) => assert buffer + [] == buffer;
    case Finished(Routed(_, _, _, unread)) => assert unread + [] == unread;
    case Finished(_) =>
  }
}
