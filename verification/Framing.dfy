/** Messages over a byte stream: the send loop, and the receive loop that cuts
    the stream back into messages however the bytes happen to arrive. */
module Framing {
  import opened Common
  import opened Wire

  datatype Message = Message(header: Header, payload: seq<byte>)

  /** What the senders of the program put on the wire. */
  predicate WellFormed(m: Message) {
    m.header.magic == MAGIC && m.header.payloadLen == |m.payload| <= BUFFER_SIZE
  }

  function Encode(m: Message): seq<byte> {
    EncodeHeader(m.header) + m.payload
  }

  function Stream(messages: seq<Message>): seq<byte> {
    if messages == [] then [] else Encode(messages[0]) + Stream(messages[1..])
  }

  /** A header the receiver gives up on; it has consumed the header by then. */
  predicate Rejected(h: Header) {
    h.magic != MAGIC || h.payloadLen > BUFFER_SIZE
  }

  /** The messages in a stream of bytes, rejected headers being skipped. */
  function Decode(b: seq<byte>): seq<Message> {
    if |b| < HEADER_SIZE then []
    else
      var h, rest := DecodeHeader(b[..HEADER_SIZE]), b[HEADER_SIZE..];
      if Rejected(h) then Decode(rest)
      else if |rest| < h.payloadLen then []
      else [Message(h, rest[..h.payloadLen])] + Decode(rest[h.payloadLen..])
  }

  /** A header that is given up on leaves the rest of the stream to decode. */
  lemma DecodeSkip(raw: seq<byte>, rest: seq<byte>)
    requires |raw| == 24 && (DecodeHeader(raw).magic != 0x44534D00 || DecodeHeader(raw).payloadLen > 65536)
    ensures Decode(raw + rest) == Decode(rest)
  {
    assert (raw + rest)[..HEADER_SIZE] == raw && (raw + rest)[HEADER_SIZE..] == rest;
  }

  lemma DecodeNext(raw: seq<byte>, payload: seq<byte>, rest: seq<byte>)
    requires |raw| == 24 && DecodeHeader(raw).magic == 0x44534D00
    requires |payload| == DecodeHeader(raw).payloadLen <= 65536
    ensures Decode(raw + (payload + rest)) == [Message(DecodeHeader(raw), payload)] + Decode(rest)
  {
    var b, tail := raw + (payload + rest), payload + rest;
    assert b[..HEADER_SIZE] == raw && b[HEADER_SIZE..] == tail;
    assert tail[..|payload|] == payload && tail[|payload|..] == rest;
  }

  /** A stream that ends inside a payload has no further message. */
  lemma DecodeCut(raw: seq<byte>, rest: seq<byte>)
    requires |raw| == HEADER_SIZE && !Rejected(DecodeHeader(raw)) && |rest| < DecodeHeader(raw).payloadLen
    ensures Decode(raw + rest) == []
  {
    assert (raw + rest)[..HEADER_SIZE] == raw && (raw + rest)[HEADER_SIZE..] == rest;
  }

  /** No header in the stream is one the receiver gives up on. */
  predicate Sound(b: seq<byte>) {
    |b| >= HEADER_SIZE ==>
      var h, rest := DecodeHeader(b[..HEADER_SIZE]), b[HEADER_SIZE..];
      !Rejected(h) && (|rest| >= h.payloadLen ==> Sound(rest[h.payloadLen..]))
  }

  lemma SoundNext(raw: seq<byte>, payload: seq<byte>, rest: seq<byte>)
    requires |raw| == HEADER_SIZE && !Rejected(DecodeHeader(raw)) && |payload| == DecodeHeader(raw).payloadLen
    ensures Sound(raw + (payload + rest)) == Sound(rest)
  {
    var b, tail := raw + (payload + rest), payload + rest;
    assert b[..HEADER_SIZE] == raw && b[HEADER_SIZE..] == tail;
    assert tail[|payload|..] == rest;
  }

  lemma SoundCut(raw: seq<byte>, rest: seq<byte>)
    requires |raw| == HEADER_SIZE && !Rejected(DecodeHeader(raw)) && |rest| < DecodeHeader(raw).payloadLen
    ensures Sound(raw + rest)
  {
    assert (raw + rest)[..HEADER_SIZE] == raw && (raw + rest)[HEADER_SIZE..] == rest;
  }

  lemma SoundHeader(raw: seq<byte>, rest: seq<byte>)
    requires |raw| == HEADER_SIZE && Sound(raw + rest)
    ensures !Rejected(DecodeHeader(raw))
  {
    assert (raw + rest)[..HEADER_SIZE] == raw;
  }

  /** Whatever the stream, a message delivered has the magic number and the length it says. */
  lemma {:induction false} DecodeSound(b: seq<byte>, m: Message)
    requires m in Decode(b)
    ensures m.header.magic == 0x44534D00 && m.header.payloadLen == |m.payload| <= 65536
  {
    var h, rest := DecodeHeader(b[..HEADER_SIZE]), b[HEADER_SIZE..];
    if Rejected(h) {
      DecodeSound(rest, m);
    } else if m != Message(h, rest[..h.payloadLen]) {
      DecodeSound(rest[h.payloadLen..], m);
    }
  }

  ghost predicate AllWellFormed(messages: seq<Message>) {
    forall m :: m in messages ==> WellFormed(m)
  }

  /** Decoding undoes sending: all messages, once each, in order. */
  lemma {:induction false} RoundTrip(messages: seq<Message>)
    requires AllWellFormed(messages)
    ensures Decode(Stream(messages)) == messages
  {
    if messages == [] {
    } else {
      var m, later := messages[0], Stream(messages[1..]);
      RoundTrip(messages[1..]);
      assert WellFormed(m);
      HeaderRoundTrip(m.header);
      var raw := EncodeHeader(m.header);
      DecodeNext(raw, m.payload, later);
      Regroup(raw, m.payload, later);
      assert Stream(messages) == raw + (m.payload + later);
      assert messages == [m] + messages[1..];
    }
  }

  /** The first part of a stream of a message and more, cut behind its header or later. */
  lemma PrefixParts(b: seq<byte>, raw: seq<byte>, payload: seq<byte>, later: seq<byte>)
    requires |raw| <= |b| && b <= raw + (payload + later)
    ensures b == raw + b[|raw|..]
    ensures |b| >= |raw| + |payload| ==>
              var tail := b[|raw|..][|payload|..]; b[|raw|..] == payload + tail && tail <= later
  {
    var rest := b[|raw|..];
    assert rest <= payload + later;
    if |rest| >= |payload| { assert rest == payload + rest[|payload|..]; }
  }

  /** Of any first part of what was sent, the first messages, none changed. */
  lemma {:induction false} PrefixRoundTrip(b: seq<byte>, messages: seq<Message>)
    requires AllWellFormed(messages) && b <= Stream(messages)
    ensures Decode(b) <= messages && Sound(b)
  {
    if messages == [] || |b| < HEADER_SIZE {
    } else {
      var m, later := messages[0], Stream(messages[1..]);
      assert WellFormed(m);
      HeaderRoundTrip(m.header);
      var raw, rest := EncodeHeader(m.header), b[HEADER_SIZE..];
      Regroup(raw, m.payload, later);
      PrefixParts(b, raw, m.payload, later);
      if |rest| < |m.payload| {
        DecodeCut(raw, rest);
        SoundCut(raw, rest);
      } else {
        var tail := rest[|m.payload|..];
        PrefixRoundTrip(tail, messages[1..]);
        DecodeNext(raw, m.payload, tail);
        SoundNext(raw, m.payload, tail);
        assert messages == [m] + messages[1..];
      }
    }
  }

  /** One more message sent is one more at the end of the stream. */
  lemma {:induction false} StreamSnoc(messages: seq<Message>, m: Message)
    ensures Stream(messages + [m]) == Stream(messages) + Encode(m)
  {
    if messages == [] {
      assert [m][1..] == [];
    } else {
      StreamSnoc(messages[1..], m);
      assert (messages + [m])[1..] == messages[1..] + [m];
      Regroup(Encode(messages[0]), Stream(messages[1..]), Encode(m));
    }
  }

  lemma StreamGrows(messages: seq<Message>, m: Message, total: nat)
    requires total <= |Encode(m)|
    ensures Stream(messages) + Encode(m)[..total] <= Stream(messages + [m])
    ensures total == |Encode(m)| ==> Stream(messages) + Encode(m)[..total] == Stream(messages + [m])
  {
    StreamSnoc(messages, m);
    Regroup(Stream(messages), Encode(m)[..total], Encode(m)[total..]);
    assert Encode(m) == Encode(m)[..total] + Encode(m)[total..];
  }

  lemma Pieces(head: seq<byte>, tail: seq<byte>, n: nat)
    ensures n <= |head| ==> (head + tail)[..n] == head[..n]
    ensures n <= |tail| ==> (head + tail)[..|head| + n] == head + tail[..n]
  {
  }

  /** The receiving end: bytes the kernel holds, and those still to arrive
      before the peer closes or is lost. */
  class InSocket {
    var avail: seq<byte>
    var future: seq<byte>

    ghost function Rest(): seq<byte>
      reads this
    {
      avail + future
    }

    /** Any number of bytes may arrive between two calls of the receiver. */
    method Arrive()
      modifies this
      ensures Rest() == old(Rest()) && old(avail) <= avail && |future| <= old(|future|)
    {
      var k: nat :| k <= |future|;
      avail, future := avail + future[..k], future[k..];
    }

    /** Time passes until at least one more byte is here. */
    method Await()
      requires future != []
      modifies this
      ensures Rest() == old(Rest()) && old(avail) < avail && |future| < old(|future|)
    {
      var k: nat :| 1 <= k <= |future|;
      avail, future := avail + future[..k], future[k..];
    }

    /** At most n bytes, left in place; nothing at all stands for "no data yet". */
    method Peek(n: nat) returns (b: seq<byte>)
      modifies this
      ensures Rest() == old(Rest()) && |future| <= old(|future|)
      ensures b <= avail && |b| == if n <= |avail| then n else |avail|
    {
      Arrive();
      b := if n <= |avail| then avail[..n] else avail;
    }

    /** At most n bytes, taken out; those present before the call suffice for n. */
    method Recv(n: nat) returns (b: seq<byte>)
      modifies this
      ensures b + Rest() == old(Rest()) && |b| <= n && |future| <= old(|future|)
      ensures n <= old(|avail|) ==> |b| == n
      ensures |b| < n ==> avail == []
    {
      Arrive();
      b := if n <= |avail| then avail[..n] else avail;
      avail := avail[|b|..];
    }
  }

  class Receiver {
    const buffer: array<byte>

    constructor ()
      ensures buffer.Length == BUFFER_SIZE && fresh(buffer)
    {
      buffer := new byte[BUFFER_SIZE];
    }

    /** Fill the buffer from the front with a payload, waiting while there is no data. */
    method ReadPayload(s: InSocket, len: nat) returns (ok: bool)
      requires len <= buffer.Length
      modifies s, buffer
      ensures |s.future| <= old(|s.future|) && (ok <==> len <= |old(s.Rest())|)
      ensures ok ==> buffer[..len] + s.Rest() == old(s.Rest())
      ensures !ok ==> s.Rest() == []
    {
      var total := 0;
      while total < len
        invariant total <= len
        invariant buffer[..total] + s.Rest() == old(s.Rest()) && |s.future| <= old(|s.future|)
        decreases len - total, |s.future|
      {
        var chunk := s.Recv(len - total);
        if chunk == [] {
          if s.future == [] {
            return false;
          }
          s.Await();
        } else {
          ghost var done := buffer[..total];
          Land(total, chunk);
          Regroup(done, chunk, s.Rest());
          total := total + |chunk|;
        }
      }
      ok := true;
    }

    /** The kernel writes a chunk into the buffer behind what is there. */
    method Land(total: nat, chunk: seq<byte>)
      requires total + |chunk| <= buffer.Length
      modifies buffer
      ensures buffer[..total + |chunk|] == old(buffer[..total]) + chunk
    {
      for i := 0 to |chunk|
        invariant buffer[..total + i] == old(buffer[..total]) + chunk[..i]
      {
        buffer[total + i] := chunk[i];
      }
    }

    /**
     * One call on a readable socket.  What it delivers and what the rest of
     * the stream holds is what the stream held before, for every stream and
     * every timing of the arrivals.
     */
    method HandleClientData(s: InSocket) returns (delivered: seq<Message>, failed: bool)
      requires buffer.Length == BUFFER_SIZE
      modifies s, buffer
      ensures delivered + Decode(s.Rest()) == Decode(old(s.Rest()))
      ensures |s.Rest()| <= old(|s.Rest()|) && |s.future| <= old(|s.future|)
      ensures failed ==> |s.Rest()| < old(|s.Rest()|)
      ensures !failed ==> |s.avail| < HEADER_SIZE
      ensures old(Sound(s.Rest())) ==> Sound(s.Rest()) && (failed ==> s.Rest() == [])
    {
      delivered, failed := [], false;
      while true
        invariant delivered + Decode(s.Rest()) == Decode(old(s.Rest()))
        invariant old(Sound(s.Rest())) ==> Sound(s.Rest())
        invariant |s.Rest()| <= old(|s.Rest()|) && |s.future| <= old(|s.future|)
        decreases |s.Rest()|
      {
        var seen := s.Peek(HEADER_SIZE);
        if |seen| < HEADER_SIZE {
          return;
        }
        var raw := s.Recv(HEADER_SIZE);
        var header := DecodeHeader(raw);
        ghost var rest := s.Rest();
        if Sound(raw + rest) { SoundHeader(raw, rest); }
        if header.magic != MAGIC {
          DecodeSkip(raw, rest);
          failed := true;
          return;
        }
        if header.payloadLen > BUFFER_SIZE {
          DecodeSkip(raw, rest);
          failed := true;
          return;
        }
        var ok := ReadPayload(s, header.payloadLen);
        if !ok {
          DecodeCut(raw, rest);
          failed := true;
          return;
        }
        var payload := buffer[..header.payloadLen];
        DecodeNext(raw, payload, s.Rest());
        SoundNext(raw, payload, s.Rest());
        Regroup(delivered, [Message(header, payload)], Decode(s.Rest()));
        delivered := delivered + [Message(header, payload)];
      }
    }

    /**
     * The event loop on one connection, until the peer's last byte is handled.
     * A level-triggered socket is reported while bytes are there, an
     * edge-triggered one when it is added and when more have arrived since it
     * was last reported.  A level-triggered one delivers exactly the messages
     * of the stream, and so does an edge-triggered one if none is rejected:
     * otherwise what is left waits for bytes that do not come.  If the stream
     * is all that a sender of messages sent, they are delivered in order, once
     * each, on either; if it is a first part of it, the first of them are.
     */
    method Serve(s: InSocket, edge: bool) returns (delivered: seq<Message>)
      requires buffer.Length == BUFFER_SIZE
      modifies s, buffer
      ensures s.future == [] && delivered + Decode(s.Rest()) == Decode(old(s.Rest()))
      ensures !edge || old(Sound(s.Rest())) ==> delivered == Decode(old(s.Rest()))
      ensures !edge ==> |s.avail| < HEADER_SIZE
      ensures forall sent :: AllWellFormed(sent) && old(s.Rest()) == Stream(sent) ==> delivered == sent
      ensures forall sent :: AllWellFormed(sent) && old(s.Rest()) <= Stream(sent) ==> delivered <= sent
    {
      delivered := [];
      var reported := true;
      while reported || s.future != []
        invariant delivered + Decode(s.Rest()) == Decode(old(s.Rest()))
        invariant old(Sound(s.Rest())) ==> Sound(s.Rest())
        invariant !reported && (!edge || old(Sound(s.Rest()))) ==> |s.avail| < HEADER_SIZE
        decreases |s.Rest()|, |s.future|, reported
      {
        if !reported {
          s.Await();
        }
        var coming := |s.future|;
        var more, failed := HandleClientData(s);
        Regroup(delivered, more, Decode(s.Rest()));
        delivered := delivered + more;
        reported := if edge then |s.future| < coming else |s.avail| >= HEADER_SIZE;
      }
      forall sent | AllWellFormed(sent) && old(s.Rest()) <= Stream(sent)
        ensures delivered <= sent && (old(s.Rest()) == Stream(sent) ==> delivered == sent)
      {
        PrefixRoundTrip(old(s.Rest()), sent);
        RoundTrip(sent);
      }
    }
  }

  /** What the kernel does with an offer of bytes: take some, ask to try again, or fail. */
  datatype Outcome = Taken(n: nat) | Again | Failed

  /** The sending end: whether there is a socket, and how it will go. */
  class OutSocket {
    const connected: bool
    var sent: seq<byte>
    var refusals: nat

    method Send(b: seq<byte>) returns (outcome: Outcome)
      requires b != []
      modifies this
      ensures refusals <= old(refusals)
      ensures match outcome
              case Taken(n) => 1 <= n <= |b| && sent == old(sent) + b[..n]
              case Again => sent == old(sent) && refusals < old(refusals)
              case Failed => sent == old(sent)
    {
      var fails: bool := *;
      if fails {
        return Failed;
      }
      if refusals > 0 {
        refusals := refusals - 1;
        return Again;
      }
      var n: nat :| 1 <= n <= |b|;
      sent := sent + b[..n];
      outcome := Taken(n);
    }

    /** All the bytes in order; or, on an error, a first part of them. */
    method SendRaw(data: seq<byte>) returns (ok: bool, ghost total: nat)
      modifies this
      ensures total <= |data| && sent == old(sent) + data[..total] && (ok ==> total == |data|)
    {
      var count := 0;
      total := 0;
      while count < |data|
        invariant total == count <= |data| && sent == old(sent) + data[..count]
        decreases |data| - count, refusals
      {
        var outcome := Send(data[count..]);
        match outcome
        case Failed => return false, total;
        case Again =>
        case Taken(n) =>
          assert data[..count + n] == data[..count] + data[count..][..n];
          count := count + n;
          total := count;
      }
      ok := true;
    }

    /** Header, then payload if any.  A stream of messages goes on with this one;
        an error leaves a first part of it. */
    method SendMessage(m: Message) returns (ok: bool, ghost total: nat)
      requires WellFormed(m)
      modifies this
      ensures total <= |Encode(m)| && sent == old(sent) + Encode(m)[..total] && (ok ==> total == |Encode(m)|)
      ensures !connected ==> !ok && total == 0
      ensures forall before :: old(sent) == Stream(before) ==>
                sent <= Stream(before + [m]) && (ok ==> sent == Stream(before + [m]))
    {
      if !connected {
        ok, total := false, 0;
      } else {
        ok, total := SendRaw(EncodeHeader(m.header));
        Pieces(EncodeHeader(m.header), m.payload, total);
        if ok && m.payload != [] {
          ghost var more;
          ok, more := SendRaw(m.payload);
          Pieces(EncodeHeader(m.header), m.payload, more);
          Regroup(old(sent), EncodeHeader(m.header), m.payload[..more]);
          total := total + more;
        }
      }
      assert sent == old(sent) + Encode(m)[..total];
      forall before | old(sent) == Stream(before)
        ensures sent <= Stream(before + [m]) && (ok ==> sent == Stream(before + [m]))
      {
        StreamGrows(before, m, total);
      }
    }
  }
}
