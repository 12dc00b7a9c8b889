/**
 * The USB packet transport of nut_impl/usb.py: the 32-byte little-endian
 * header, Packet.recv and Packet.send over two endpoints, the response
 * writer that turns each non-empty write into one outgoing packet, the
 * request descriptor built from a received URL, one step of the command
 * loop, and the choice of device by vendor and product identity.
 */
module Usb {
  import opened Wrappers
  import opened Bytes

  // ---------------------------------------------------------------------
  // Header layout
  // ---------------------------------------------------------------------

  /** The sentinel every header starts with: 12 12 12 12 (hex). */
  const Magic: seq<byte> := [0x12, 0x12, 0x12, 0x12]

  /** magic(4) | command(4) | size(8) | threadId(4) | packetIndex(2) | packetCount(2) | timestamp(8) */
  const HeaderSize: nat := 32

  /** The only command the loop serves: forward an HTTP-style request. */
  const ForwardRequest: nat := 1

  /** The timeout, in milliseconds, that the response writer passes to send: ten minutes. */
  const ReplyTimeout: nat := 10 * 60 * 1000

  datatype Header = Header(
    magic: seq<byte>,
    command: nat,
    size: nat,
    threadId: nat,
    packetIndex: nat,
    packetCount: nat,
    timestamp: nat)

  /**
   * The fields Packet.recv reads out of the bytes the header read returned.
   * A short read leaves the missing fields short (Python slices clamp),
   * and an empty slice decodes to 0.
   */
  function DecodeHeader(h: seq<byte>): (r: Header)
    ensures r.magic == Take(h, 4)
    ensures r.command < Pow256(4) && r.size < Pow256(8) && r.threadId < Pow256(4)
    ensures r.packetIndex < Pow256(2) && r.packetCount < Pow256(2) && r.timestamp < Pow256(8)
  {
    Pow256Monotone(|Slice(h, 4, 8)|, 4);
    Pow256Monotone(|Slice(h, 8, 16)|, 8);
    Pow256Monotone(|Slice(h, 16, 20)|, 4);
    Pow256Monotone(|Slice(h, 20, 22)|, 2);
    Pow256Monotone(|Slice(h, 22, 24)|, 2);
    Pow256Monotone(|Slice(h, 24, 32)|, 8);
    Header(
      Slice(h, 0, 4),
      FromLittleEndian(Slice(h, 4, 8)),
      FromLittleEndian(Slice(h, 8, 16)),
      FromLittleEndian(Slice(h, 16, 20)),
      FromLittleEndian(Slice(h, 20, 22)),
      FromLittleEndian(Slice(h, 22, 24)),
      FromLittleEndian(Slice(h, 24, 32)))
  }

  /** The 32 header bytes Packet.send writes for a command and a payload length. */
  function EncodeHeader(command: nat, size: nat): (r: seq<byte>)
    requires command < Pow256(4) && size < Pow256(8)
    ensures |r| == HeaderSize
    ensures Take(r, 4) == Magic
  {
    Magic + (ToLittleEndian(command, 4) + (ToLittleEndian(size, 8)
      + (ToLittleEndian(0, 4) + (ToLittleEndian(0, 2) + (ToLittleEndian(0, 2) + ToLittleEndian(0, 8))))))
  }

  /**
   * Decoding what send writes gives back the sentinel, the command, the
   * payload length, and zero in every auxiliary field.
   */
  lemma DecodeEncodeHeader(command: nat, size: nat)
    requires command < Pow256(4) && size < Pow256(8)
    ensures DecodeHeader(EncodeHeader(command, size)) == Header(Magic, command, size, 0, 0, 0, 0)
  {
    HeaderSlices(Magic, ToLittleEndian(command, 4), ToLittleEndian(size, 8), ToLittleEndian(0, 4),
                 ToLittleEndian(0, 2), ToLittleEndian(0, 2), ToLittleEndian(0, 8));
  }

  /** The seven field slices DecodeHeader takes pick out the seven fields a header is built from. */
  lemma HeaderSlices(c0: seq<byte>, c1: seq<byte>, c2: seq<byte>, c3: seq<byte>, c4: seq<byte>, c5: seq<byte>, c6: seq<byte>)
    requires |c0| == 4 && |c1| == 4 && |c2| == 8 && |c3| == 4 && |c4| == 2 && |c5| == 2 && |c6| == 8
    ensures var h := c0 + (c1 + (c2 + (c3 + (c4 + (c5 + c6)))));
      && Slice(h, 0, 4) == c0 && Slice(h, 4, 8) == c1 && Slice(h, 8, 16) == c2 && Slice(h, 16, 20) == c3
      && Slice(h, 20, 22) == c4 && Slice(h, 22, 24) == c5 && Slice(h, 24, 32) == c6
  {
    var r5 := c5 + c6;
    var r4 := c4 + r5;
    var r3 := c3 + r4;
    var r2 := c2 + r3;
    var r1 := c1 + r2;
    SlicePrefix(c0, r1);
    SliceAfter(c0, r1, 4, 8);   SlicePrefix(c1, r2);
    SliceAfter(c0, r1, 8, 16);  SliceAfter(c1, r2, 4, 12);  SlicePrefix(c2, r3);
    SliceAfter(c0, r1, 16, 20); SliceAfter(c1, r2, 12, 16); SliceAfter(c2, r3, 8, 12); SlicePrefix(c3, r4);
    SliceAfter(c0, r1, 20, 22); SliceAfter(c1, r2, 16, 18); SliceAfter(c2, r3, 12, 14); SliceAfter(c3, r4, 8, 10);
    SlicePrefix(c4, r5);
    SliceAfter(c0, r1, 22, 24); SliceAfter(c1, r2, 18, 20); SliceAfter(c2, r3, 14, 16); SliceAfter(c3, r4, 10, 12);
    SliceAfter(c4, r5, 6, 8);   SlicePrefix(c5, c6);
    SliceAfter(c0, r1, 24, 32); SliceAfter(c1, r2, 20, 28); SliceAfter(c2, r3, 16, 24); SliceAfter(c3, r4, 12, 20);
    SliceAfter(c4, r5, 8, 16);  SliceAfter(c5, c6, 2, 10);
    assert Slice(c6, 0, 8) == c6;
  }

  // ---------------------------------------------------------------------
  // Endpoints
  // ---------------------------------------------------------------------

  datatype ReadCall = ReadCall(count: nat, timeout: nat)
  datatype WriteCall = WriteCall(chunk: seq<byte>, timeout: nat)

  /** The bytes of all chunks, in the order they were written. */
  function Flatten(ws: seq<WriteCall>): (r: seq<byte>)
  {
    if ws == [] then [] else ws[0].chunk + Flatten(ws[1..])
  }

  lemma {:induction false} FlattenAppend(a: seq<WriteCall>, b: seq<WriteCall>)
    ensures Flatten(a + b) == Flatten(a) + Flatten(b)
  {
    if a == [] {
      assert a + b == b;
    } else {
      assert (a + b)[1..] == a[1..] + b;
      FlattenAppend(a[1..], b);
    }
  }

  /**
   * The bulk IN endpoint, as a stream of bytes the device has still to
   * deliver. A read of n bytes returns the next n, or what is left when
   * fewer are pending; the log keeps each call's count and timeout.
   */
  class InEndpoint {
    var pending: seq<byte>
    var calls: seq<ReadCall>

    constructor (input: seq<byte>)
      ensures pending == input && calls == []
    {
      pending := input;
      calls := [];
    }

    method Read(count: nat, timeout: nat) returns (r: seq<byte>)
      modifies this
      ensures r == Take(old(pending), count)
      ensures pending == Drop(old(pending), count)
      ensures calls == old(calls) + [ReadCall(count, timeout)]
    {
      r := Take(pending, count);
      pending := Drop(pending, count);
      calls := calls + [ReadCall(count, timeout)];
    }
  }

  /** The bulk OUT endpoint, as the log of the chunks written to it. */
  class OutEndpoint {
    var written: seq<WriteCall>

    constructor ()
      ensures written == []
    {
      written := [];
    }

    method Write(chunk: seq<byte>, timeout: nat)
      modifies this
      ensures written == old(written) + [WriteCall(chunk, timeout)]
    {
      written := written + [WriteCall(chunk, timeout)];
    }
  }

  // ---------------------------------------------------------------------
  // Receiving and sending whole packets
  // ---------------------------------------------------------------------

  /** What a receive sees: the decoded header, the payload (None when the magic is bad), and the unread input. */
  datatype Received = Received(header: Header, payload: Option<seq<byte>>, rest: seq<byte>)

  /**
   * Packet.recv as a function of the pending input: read 32 header bytes,
   * decode them, and only when the sentinel matches read `size` payload
   * bytes from what follows.
   */
  function Receive(input: seq<byte>): (r: Received)
    ensures r.header == DecodeHeader(Take(input, HeaderSize))
    ensures r.payload.None? ==> r.rest == Drop(input, HeaderSize)
    ensures r.payload.Some? ==>
      r.payload.value == Take(Drop(input, HeaderSize), r.header.size)
      && r.rest == Drop(Drop(input, HeaderSize), r.header.size)
  {
    var header := DecodeHeader(Take(input, HeaderSize));
    var body := Drop(input, HeaderSize);
    if header.magic != Magic then Received(header, None, body)
    else Received(header, Some(Take(body, header.size)), Drop(body, header.size))
  }

  /**
   * A frame is rejected exactly when its first four bytes are not the
   * sentinel, and then nothing beyond the header is consumed.
   */
  lemma ReceiveRejectsExactlyBadMagic(input: seq<byte>)
    ensures Receive(input).payload.None? <==> Take(input, 4) != Magic
    ensures Receive(input).payload.None? ==> Receive(input).rest == Drop(input, HeaderSize)
  {
    TakeTake(input, 4, HeaderSize);
  }

  /** Only the four sentinel bytes decide; the other 28 header bytes and the rest of the input do not matter. */
  lemma MagicAloneDecides(m: seq<byte>, tail: seq<byte>)
    requires |m| == 4
    ensures Receive(m + tail).payload.None? <==> m != Magic
  {
    ReceiveRejectsExactlyBadMagic(m + tail);
    TakeAppend(m, tail);
  }

  /** The chunks Packet.send writes, stopping where struct.pack would raise on a value that does not fit. */
  function SendWrites(command: nat, payload: seq<byte>, timeout: nat): (r: seq<WriteCall>)
    ensures 1 <= |r| <= 8 && r[0] == WriteCall(Magic, timeout)
    ensures |r| == 8 <==> Sendable(command, payload)
    ensures forall w :: w in r ==> w.timeout == timeout
  {
    if command >= Pow256(4) then
      [WriteCall(Magic, timeout)]
    else if |payload| >= Pow256(8) then
      [WriteCall(Magic, timeout), WriteCall(ToLittleEndian(command, 4), timeout)]
    else
      [WriteCall(Magic, timeout),
       WriteCall(ToLittleEndian(command, 4), timeout),
       WriteCall(ToLittleEndian(|payload|, 8), timeout),
       WriteCall(ToLittleEndian(0, 4), timeout),
       WriteCall(ToLittleEndian(0, 2), timeout),
       WriteCall(ToLittleEndian(0, 2), timeout),
       WriteCall(ToLittleEndian(0, 8), timeout),
       WriteCall(payload, timeout)]
  }

  /** The values send can pack: a 4-byte command and an 8-byte length. */
  predicate Sendable(command: nat, payload: seq<byte>)
  {
    command < Pow256(4) && |payload| < Pow256(8)
  }

  /**
   * send writes eight chunks, all with the caller's timeout, whose bytes
   * are the 32-byte header followed by the payload unchanged.
   */
  lemma SendFrames(command: nat, payload: seq<byte>, timeout: nat)
    requires Sendable(command, payload)
    ensures |SendWrites(command, payload, timeout)| == 8
    ensures forall w :: w in SendWrites(command, payload, timeout) ==> w.timeout == timeout
    ensures Flatten(SendWrites(command, payload, timeout)) == EncodeHeader(command, |payload|) + payload
  {
    var c0, c1, c2, c3 := Magic, ToLittleEndian(command, 4), ToLittleEndian(|payload|, 8), ToLittleEndian(0, 4);
    var c4, c5, c6 := ToLittleEndian(0, 2), ToLittleEndian(0, 2), ToLittleEndian(0, 8);
    var ws := SendWrites(command, payload, timeout);
    assert ws == [WriteCall(c0, timeout), WriteCall(c1, timeout), WriteCall(c2, timeout), WriteCall(c3, timeout),
                  WriteCall(c4, timeout), WriteCall(c5, timeout), WriteCall(c6, timeout), WriteCall(payload, timeout)];
    FlattenEight(ws);
    assert ws[7].chunk == payload;
    AppendAssoc(c5, c6, payload);
    AppendAssoc(c4, c5 + c6, payload);
    AppendAssoc(c3, c4 + (c5 + c6), payload);
    AppendAssoc(c2, c3 + (c4 + (c5 + c6)), payload);
    AppendAssoc(c1, c2 + (c3 + (c4 + (c5 + c6))), payload);
    AppendAssoc(c0, c1 + (c2 + (c3 + (c4 + (c5 + c6)))), payload);
  }

  lemma FlattenEight(ws: seq<WriteCall>)
    requires |ws| == 8
    ensures Flatten(ws) == ws[0].chunk + (ws[1].chunk + (ws[2].chunk + (ws[3].chunk
      + (ws[4].chunk + (ws[5].chunk + (ws[6].chunk + ws[7].chunk))))))
  {
    var f7 := ws[7].chunk;
    assert Flatten(ws[7..]) == f7 by {
      FlattenSuffix(ws, 7);
      assert ws[8..] == [];
      assert f7 + [] == f7;
    }
    var f6 := ws[6].chunk + f7;
    assert Flatten(ws[6..]) == f6 by { FlattenSuffix(ws, 6); }
    var f5 := ws[5].chunk + f6;
    assert Flatten(ws[5..]) == f5 by { FlattenSuffix(ws, 5); }
    var f4 := ws[4].chunk + f5;
    assert Flatten(ws[4..]) == f4 by { FlattenSuffix(ws, 4); }
    var f3 := ws[3].chunk + f4;
    assert Flatten(ws[3..]) == f3 by { FlattenSuffix(ws, 3); }
    var f2 := ws[2].chunk + f3;
    assert Flatten(ws[2..]) == f2 by { FlattenSuffix(ws, 2); }
    var f1 := ws[1].chunk + f2;
    assert Flatten(ws[1..]) == f1 by { FlattenSuffix(ws, 1); }
    assert Flatten(ws) == ws[0].chunk + f1 by {
      FlattenSuffix(ws, 0);
      assert ws[0..] == ws;
    }
  }

  lemma FlattenSuffix(ws: seq<WriteCall>, k: nat)
    requires k < |ws|
    ensures Flatten(ws[k..]) == ws[k].chunk + Flatten(ws[k + 1..])
  {
    assert ws[k..][1..] == ws[k + 1..];
  }

  /**
   * The wire round trip: receiving what send wrote, followed by anything,
   * yields the sentinel, the same command, size == |payload|, zero
   * auxiliary fields and the payload itself, and leaves exactly what
   * followed for the next receive.
   */
  lemma ReceiveWhatWasSent(command: nat, payload: seq<byte>, timeout: nat, rest: seq<byte>)
    requires Sendable(command, payload)
    ensures Receive(Flatten(SendWrites(command, payload, timeout)) + rest)
      == Received(Header(Magic, command, |payload|, 0, 0, 0, 0), Some(payload), rest)
  {
    SendFrames(command, payload, timeout);
    AppendAssoc(EncodeHeader(command, |payload|), payload, rest);
    ReceiveFrame(command, payload, rest);
  }

  /** A received frame: the header, then exactly the announced payload, then whatever follows. */
  lemma ReceiveFrame(command: nat, payload: seq<byte>, rest: seq<byte>)
    requires Sendable(command, payload)
    ensures Receive(EncodeHeader(command, |payload|) + (payload + rest))
      == Received(Header(Magic, command, |payload|, 0, 0, 0, 0), Some(payload), rest)
  {
    var h := EncodeHeader(command, |payload|);
    TakeAppend(h, payload + rest);
    TakeAppend(payload, rest);
    DecodeEncodeHeader(command, |payload|);
  }

  /**
   * A packet together with the two endpoints it reads from and writes to.
   * recv overwrites the header fields and, on a good frame, the payload;
   * send writes the header and the payload.
   */
  class Packet {
    var size: nat
    var payload: seq<byte>
    var command: nat
    var threadId: nat
    var packetIndex: nat
    var packetCount: nat
    var timestamp: nat
    const i: InEndpoint
    const o: OutEndpoint

    constructor (i: InEndpoint, o: OutEndpoint)
      ensures size == 0 && payload == [] && command == 0
      ensures threadId == 0 && packetIndex == 0 && packetCount == 0 && timestamp == 0
      ensures this.i == i && this.o == o
    {
      size, payload, command := 0, [], 0;
      threadId, packetIndex, packetCount, timestamp := 0, 0, 0, 0;
      this.i, this.o := i, o;
    }

    /**
     * Reads the header with the given timeout and stores every field before
     * looking at the magic; a bad magic returns false with the payload left
     * as it was. Otherwise the payload is read with timeout 0 (no limit).
     */
    method Recv(timeout: nat) returns (ok: bool)
      modifies this, i
      ensures var r := Receive(old(i.pending));
        && ok == r.payload.Some?
        && command == r.header.command && size == r.header.size
        && threadId == r.header.threadId && packetIndex == r.header.packetIndex
        && packetCount == r.header.packetCount && timestamp == r.header.timestamp
        && payload == (if ok then r.payload.value else old(payload))
        && i.pending == r.rest
      ensures i.calls == old(i.calls) + [ReadCall(HeaderSize, timeout)]
        + (if ok then [ReadCall(size, 0)] else [])
    {
      var header := i.Read(HeaderSize, timeout);
      var magic := Slice(header, 0, 4);
      command := FromLittleEndian(Slice(header, 4, 8));
      size := FromLittleEndian(Slice(header, 8, 16));
      threadId := FromLittleEndian(Slice(header, 16, 20));
      packetIndex := FromLittleEndian(Slice(header, 20, 22));
      packetCount := FromLittleEndian(Slice(header, 22, 24));
      timestamp := FromLittleEndian(Slice(header, 24, 32));

      if magic != Magic {
        return false;
      }

      payload := i.Read(size, 0);
      ok := true;
    }

    /**
     * Writes the sentinel, the command, the payload length, four zeroed
     * auxiliary fields and the payload, each with the given timeout.
     * ok is false when struct.pack would raise part-way through.
     */
    method Send(timeout: nat) returns (ok: bool)
      modifies o
      ensures o.written == old(o.written) + SendWrites(command, payload, timeout)
      ensures ok == Sendable(command, payload)
    {
      ghost var w := o.written;
      var w0 := WriteCall(Magic, timeout);
      o.Write(Magic, timeout);
      if command >= Pow256(4) {
        return false;
      }
      var c1 := ToLittleEndian(command, 4);
      var w1 := WriteCall(c1, timeout);
      o.Write(c1, timeout);
      if |payload| >= Pow256(8) {
        assert o.written == w + [w0, w1];
        return false;
      }
      var c2, c3, c4, c5, c6 := ToLittleEndian(|payload|, 8), ToLittleEndian(0, 4), ToLittleEndian(0, 2), ToLittleEndian(0, 2), ToLittleEndian(0, 8);
      o.Write(c2, timeout);
      o.Write(c3, timeout);
      o.Write(c4, timeout);
      o.Write(c5, timeout);
      o.Write(c6, timeout);
      o.Write(payload, timeout);
      AppendEight(w, w0, w1, WriteCall(c2, timeout), WriteCall(c3, timeout), WriteCall(c4, timeout),
                  WriteCall(c5, timeout), WriteCall(c6, timeout), WriteCall(payload, timeout));
      ok := true;
    }
  }

  lemma AppendEight(w: seq<WriteCall>, a0: WriteCall, a1: WriteCall, a2: WriteCall, a3: WriteCall,
                    a4: WriteCall, a5: WriteCall, a6: WriteCall, a7: WriteCall)
    ensures w + [a0] + [a1] + [a2] + [a3] + [a4] + [a5] + [a6] + [a7] == w + [a0, a1, a2, a3, a4, a5, a6, a7]
  {
  }

  // ---------------------------------------------------------------------
  // The response writer
  // ---------------------------------------------------------------------

  /** What the router hands to write: text or raw bytes. */
  datatype Body = Text(text: string) | Raw(bytes: seq<byte>)

  /** _write's normalisation: text is encoded as UTF-8, bytes are taken as they are. */
  function Normalize(data: Body): (r: seq<byte>)
    ensures data.Text? ==> (r == [] <==> data.text == [])
    ensures data.Raw? ==> r == data.bytes
  {
    match data
    case Text(s) => Utf8Encode(s)
    case Raw(b) => b
  }

  /**
   * The response bound to one received packet. Headers are not sent
   * separately (sendHeader does nothing); every non-empty write becomes
   * one packet carrying exactly that data.
   */
  class UsbResponse {
    const packet: Packet
    var bytesSent: nat
    var headersSent: bool

    constructor (packet: Packet)
      ensures this.packet == packet && bytesSent == 0 && !headersSent
    {
      this.packet := packet;
      bytesSent := 0;
      headersSent := false;
    }

    /** ok is false when the send inside raised. */
    method Write(data: Body) returns (ok: bool)
      modifies this`bytesSent, packet`payload, packet.o
      ensures var b := Normalize(data);
        if b == [] then
          && ok
          && bytesSent == old(bytesSent) && packet.payload == old(packet.payload)
          && packet.o.written == old(packet.o.written)
        else
          && bytesSent == old(bytesSent) + |b|
          && packet.payload == b
          && packet.o.written == old(packet.o.written) + SendWrites(packet.command, b, ReplyTimeout)
          && ok == Sendable(packet.command, b)
    {
      var b := Normalize(data);
      if |b| == 0 {
        return true;
      }
      bytesSent := bytesSent + |b|;
      packet.payload := b;
      ok := packet.Send(ReplyTimeout);
    }
  }

  /** The data of the non-empty writes, in order: one outgoing packet each. */
  function Replies(bodies: seq<Body>): (r: seq<seq<byte>>)
    ensures forall b :: b in r ==> b != []
    ensures |r| <= |bodies|
  {
    if bodies == [] then []
    else if Normalize(bodies[0]) == [] then Replies(bodies[1..])
    else [Normalize(bodies[0])] + Replies(bodies[1..])
  }

  /** The wire bytes of one reply packet per entry. */
  function Frames(command: nat, replies: seq<seq<byte>>): (r: seq<byte>)
    requires command < Pow256(4)
    requires forall b :: b in replies ==> |b| < Pow256(8)
  {
    if replies == [] then []
    else EncodeHeader(command, |replies[0]|) + replies[0] + Frames(command, replies[1..])
  }

  /** The chunks a sequence of writes leaves on the OUT endpoint, up to the first send that raises. */
  function ReplyWrites(command: nat, bodies: seq<Body>): (r: seq<WriteCall>)
    ensures |r| <= 8 * |Replies(bodies)|
    ensures forall w :: w in r ==> w.timeout == ReplyTimeout
  {
    if bodies == [] then []
    else
      var b := Normalize(bodies[0]);
      if b == [] then ReplyWrites(command, bodies[1..])
      else if Sendable(command, b) then SendWrites(command, b, ReplyTimeout) + ReplyWrites(command, bodies[1..])
      else SendWrites(command, b, ReplyTimeout)
  }

  /**
   * When every reply fits, the writes leave exactly one framed packet per
   * non-empty write on the wire, in order, eight chunks each; nothing is
   * coalesced and the empty writes leave no trace.
   */
  lemma {:induction false} ReplyWritesFrames(command: nat, bodies: seq<Body>)
    requires command < Pow256(4)
    requires forall b :: b in Replies(bodies) ==> |b| < Pow256(8)
    ensures |ReplyWrites(command, bodies)| == 8 * |Replies(bodies)|
    ensures Flatten(ReplyWrites(command, bodies)) == Frames(command, Replies(bodies))
  {
    if bodies != [] {
      var b := Normalize(bodies[0]);
      ReplyWritesFrames(command, bodies[1..]);
      if b != [] {
        assert b in Replies(bodies);
        SendFrames(command, b, ReplyTimeout);
        FlattenAppend(SendWrites(command, b, ReplyTimeout), ReplyWrites(command, bodies[1..]));
      }
    }
  }

  /** The total length of the non-empty writes. */
  function TotalLength(replies: seq<seq<byte>>): nat
  {
    if replies == [] then 0 else |replies[0]| + TotalLength(replies[1..])
  }

  /** packet.payload after the writes: each non-empty write replaces it. */
  function LastPayload(payload: seq<byte>, bodies: seq<Body>): (r: seq<byte>)
    ensures r == payload || r in Replies(bodies)
    decreases bodies
  {
    if bodies == [] then payload
    else LastPayload(if Normalize(bodies[0]) == [] then payload else Normalize(bodies[0]), bodies[1..])
  }

  /** The payload left behind is the data of the last non-empty write, or the old one when there was none. */
  lemma {:induction false} LastPayloadIsLastReply(payload: seq<byte>, bodies: seq<Body>)
    ensures Replies(bodies) == [] ==> LastPayload(payload, bodies) == payload
    ensures Replies(bodies) != [] ==> LastPayload(payload, bodies) == Replies(bodies)[|Replies(bodies)| - 1]
    decreases bodies
  {
    if bodies != [] {
      var b := Normalize(bodies[0]);
      LastPayloadIsLastReply(if b == [] then payload else b, bodies[1..]);
    }
  }

  /** Every reply fits the length field, so no send raises. */
  predicate AllSendable(command: nat, replies: seq<seq<byte>>)
  {
    replies == [] || (Sendable(command, replies[0]) && AllSendable(command, replies[1..]))
  }

  /** One write's worth of ReplyWrites, Replies and LastPayload, taken from the front of a suffix. */
  lemma ReplyStep(command: nat, payload: seq<byte>, bodies: seq<Body>, k: nat)
    requires k < |bodies|
    ensures var b := Normalize(bodies[k]);
      && ReplyWrites(command, bodies[k..]) ==
        (if b == [] then ReplyWrites(command, bodies[k + 1..])
         else if Sendable(command, b) then SendWrites(command, b, ReplyTimeout) + ReplyWrites(command, bodies[k + 1..])
         else SendWrites(command, b, ReplyTimeout))
      && Replies(bodies[k..]) == (if b == [] then Replies(bodies[k + 1..]) else [b] + Replies(bodies[k + 1..]))
      && LastPayload(payload, bodies[k..]) == LastPayload(if b == [] then payload else b, bodies[k + 1..])
  {
    assert bodies[k..][0] == bodies[k];
    assert bodies[k..][1..] == bodies[k + 1..];
  }

  /**
   * What a route has left behind after its first k bodies, given as the
   * OUT log w, the byte count n and the payload p, measured against the
   * whole route started from w0, n0 and p0.
   */
  ghost predicate RespondedSoFar(c: nat, bodies: seq<Body>, k: nat,
                                 w0: seq<WriteCall>, n0: nat, p0: seq<byte>,
                                 w: seq<WriteCall>, n: nat, p: seq<byte>)
    requires k <= |bodies|
  {
    && w + ReplyWrites(c, bodies[k..]) == w0 + ReplyWrites(c, bodies)
    && n + TotalLength(Replies(bodies[k..])) == n0 + TotalLength(Replies(bodies))
    && LastPayload(p, bodies[k..]) == LastPayload(p0, bodies)
    && (AllSendable(c, Replies(bodies)) <==> AllSendable(c, Replies(bodies[k..])))
  }

  /** One write of Respond: an empty one changes nothing, a sendable one moves on, an unsendable one ends the route. */
  lemma RespondStep(c: nat, bodies: seq<Body>, k: nat,
                    w0: seq<WriteCall>, n0: nat, p0: seq<byte>,
                    w: seq<WriteCall>, n: nat, p: seq<byte>)
    requires k < |bodies|
    requires RespondedSoFar(c, bodies, k, w0, n0, p0, w, n, p)
    ensures var b := Normalize(bodies[k]);
      && (b == [] ==> RespondedSoFar(c, bodies, k + 1, w0, n0, p0, w, n, p))
      && (b != [] && Sendable(c, b) ==>
            RespondedSoFar(c, bodies, k + 1, w0, n0, p0, w + SendWrites(c, b, ReplyTimeout), n + |b|, b))
      && (b != [] && !Sendable(c, b) ==>
            w + SendWrites(c, b, ReplyTimeout) == w0 + ReplyWrites(c, bodies)
            && !AllSendable(c, Replies(bodies)))
  {
    ReplyStep(c, p, bodies, k);
    var b := Normalize(bodies[k]);
    var later := Replies(bodies[k + 1..]);
    if b != [] {
      AppendAssoc(w, SendWrites(c, b, ReplyTimeout), ReplyWrites(c, bodies[k + 1..]));
      assert ([b] + later)[1..] == later;
    }
  }

  /**
   * The router's side of a dispatch: it calls write once per body, and an
   * exception from a send ends the route. Each non-empty write sends one
   * packet; a write that sends nothing changes nothing.
   */
  method Respond(resp: UsbResponse, bodies: seq<Body>) returns (ok: bool)
    modifies resp`bytesSent, resp.packet`payload, resp.packet.o
    ensures resp.packet.o.written == old(resp.packet.o.written) + ReplyWrites(resp.packet.command, bodies)
    ensures ok <==> AllSendable(resp.packet.command, Replies(bodies))
    ensures ok ==> resp.bytesSent == old(resp.bytesSent) + TotalLength(Replies(bodies))
    ensures ok ==> resp.packet.payload == LastPayload(old(resp.packet.payload), bodies)
  {
    ghost var c := resp.packet.command;
    ghost var w0, n0, p0 := resp.packet.o.written, resp.bytesSent, resp.packet.payload;
    var k := 0;
    while k < |bodies|
      invariant 0 <= k <= |bodies|
      invariant resp.packet.command == c
      invariant RespondedSoFar(c, bodies, k, w0, n0, p0, resp.packet.o.written, resp.bytesSent, resp.packet.payload)
    {
      RespondStep(c, bodies, k, w0, n0, p0, resp.packet.o.written, resp.bytesSent, resp.packet.payload);
      var sent := resp.Write(bodies[k]);
      if !sent {
        return false;
      }
      k := k + 1;
    }
    assert bodies[k..] == [];
    ok := true;
  }

  // ---------------------------------------------------------------------
  // The request descriptor
  // ---------------------------------------------------------------------

  /** str.split(sep): the pieces between separators, empty ones included. */
  function Split(s: string, sep: char): (parts: seq<string>)
    ensures |parts| >= 1
    ensures forall p :: p in parts ==> sep !in p
  {
    if s == [] then [""]
    else
      var rest := Split(s[1..], sep);
      if s[0] == sep then [""] + rest
      else
        assert rest[0] in rest;
        [[s[0]] + rest[0]] + rest[1..]
  }

  /** sep.join(parts), the inverse of Split. */
  function Join(parts: seq<string>, sep: char): string
    requires |parts| >= 1
  {
    if |parts| == 1 then parts[0] else parts[0] + [sep] + Join(parts[1..], sep)
  }

  lemma {:induction false} JoinSplit(s: string, sep: char)
    ensures Join(Split(s, sep), sep) == s
  {
    if s != [] {
      JoinSplit(s[1..], sep);
      var rest := Split(s[1..], sep);
      if s[0] != sep {
        var parts := [[s[0]] + rest[0]] + rest[1..];
        assert parts[0] == [s[0]] + rest[0];
        if |rest| > 1 {
          assert parts[1..] == rest[1..];
          var tail := [sep] + Join(rest[1..], sep);
          assert Join(parts, sep) == ([s[0]] + rest[0]) + [sep] + Join(rest[1..], sep);
          AppendAssoc([s[0]] + rest[0], [sep], Join(rest[1..], sep));
          AppendAssoc([s[0]], rest[0], tail);
          AppendAssoc(rest[0], [sep], Join(rest[1..], sep));
        }
      } else {
        assert ([""] + rest)[1..] == rest;
      }
    }
  }

  /** The parts that are not empty, in order. */
  function NonEmpty(parts: seq<string>): (r: seq<string>)
    ensures forall p :: p in r ==> p in parts && p != ""
    ensures forall p :: p in parts && p != "" ==> p in r
  {
    if parts == [] then []
    else if parts[0] == "" then NonEmpty(parts[1..])
    else [parts[0]] + NonEmpty(parts[1..])
  }

  /** UsbRequest.bits: the '/'-separated segments of the path, empty ones dropped. */
  function Bits(path: string): (r: seq<string>)
    ensures forall b :: b in r ==> b != "" && '/' !in b
    ensures forall b :: b in Split(path, '/') && b != "" ==> b in r
  {
    NonEmpty(Split(path, '/'))
  }

  function Concat(parts: seq<string>): string
  {
    if parts == [] then [] else parts[0] + Concat(parts[1..])
  }

  /** s with every occurrence of c removed. */
  function Without(s: string, c: char): (r: string)
    ensures c !in r
  {
    if s == [] then [] else (if s[0] == c then [] else [s[0]]) + Without(s[1..], c)
  }

  lemma {:induction false} ConcatSplit(s: string, sep: char)
    ensures Concat(Split(s, sep)) == Without(s, sep)
  {
    if s != [] {
      ConcatSplit(s[1..], sep);
      var rest := Split(s[1..], sep);
      if s[0] == sep {
        assert ([""] + rest)[1..] == rest;
      } else {
        assert ([[s[0]] + rest[0]] + rest[1..])[1..] == rest[1..];
        assert Concat(rest) == rest[0] + Concat(rest[1..]);
      }
    }
  }

  lemma {:induction false} ConcatNonEmpty(parts: seq<string>)
    ensures Concat(NonEmpty(parts)) == Concat(parts)
  {
    if parts != [] {
      ConcatNonEmpty(parts[1..]);
    }
  }

  /** Read together, the segments spell the path with its slashes taken out. */
  lemma BitsSpellPath(path: string)
    ensures Concat(Bits(path)) == Without(path, '/')
  {
    ConcatNonEmpty(Split(path, '/'));
    ConcatSplit(path, '/');
  }

  /** A query value: the first of its list once collapsed, or the list parse_qs produced. */
  datatype QueryValue = First(value: string) | All(values: seq<string>)

  /** The position of the first key whose value list is empty, or the number of keys. */
  function FirstEmpty(items: seq<(string, seq<string>)>): (k: nat)
    ensures k <= |items|
    ensures k < |items| ==> items[k].1 == []
    ensures forall j :: 0 <= j < k ==> items[j].1 != []
  {
    if items == [] then 0
    else if items[0].1 == [] then 0
    else 1 + FirstEmpty(items[1..])
  }

  /**
   * The request descriptor. urlparse and parse_qs are not part of this model:
   * the constructor takes the URL, the path urlparse extracted from it and
   * the dictionary parse_qs built, as its items in insertion order.
   */
  class UsbRequest {
    const path: string
    const head: bool
    const headers: map<string, string>
    const bits: seq<string>
    const user: Option<string>
    var query: seq<(string, QueryValue)>

    /**
     * Collapses every query list to its first element, in insertion order.
     * An empty list makes v[0] raise; the surrounding except stops the
     * loop there and leaves that key and the following ones as lists.
     */
    constructor (url: string, urlPath: string, parsedQuery: seq<(string, seq<string>)>)
      ensures path == url && !head && headers == map[] && user == None
      ensures bits == Bits(urlPath)
      ensures |query| == |parsedQuery|
      ensures forall k :: 0 <= k < |query| ==> query[k].0 == parsedQuery[k].0
      ensures forall k :: 0 <= k < FirstEmpty(parsedQuery) ==> query[k].1 == First(parsedQuery[k].1[0])
      ensures forall k :: FirstEmpty(parsedQuery) <= k < |query| ==> query[k].1 == All(parsedQuery[k].1)
    {
      path := url;
      head := false;
      headers := map[];
      bits := Bits(urlPath);
      user := None;
      query := seq(|parsedQuery|, k requires 0 <= k < |parsedQuery| => (parsedQuery[k].0, All(parsedQuery[k].1)));
      new;
      var k := 0;
      while k < |query|
        invariant 0 <= k <= |query| == |parsedQuery|
        invariant forall j :: 0 <= j < |query| ==> query[j].0 == parsedQuery[j].0
        invariant forall j :: 0 <= j < k ==> parsedQuery[j].1 != [] && query[j].1 == First(parsedQuery[j].1[0])
        invariant forall j :: k <= j < |query| ==> query[j].1 == All(parsedQuery[j].1)
      {
        var v := query[k].1.values;
        if v == [] {
          break;
        }
        query := query[k := (query[k].0, First(v[0]))];
        k := k + 1;
      }
    }
  }

  // ---------------------------------------------------------------------
  // The command loop
  // ---------------------------------------------------------------------

  /** The outcome of one turn of the command loop. */
  datatype Dispatch = Routed(request: seq<byte>) | UnknownCommand(command: nat) | BadFrame

  /**
   * One turn of poll_commands: receive with timeout 0; a command-1 packet
   * is handed, with a fresh response bound to the packet, to the router,
   * which here is a function from the request payload to the bodies it
   * writes. A bad magic or any other command writes nothing and leaves the
   * packet ready for the next turn. ok is false when a send raised.
   */
  method PollOnce(p: Packet, route: seq<byte> -> seq<Body>) returns (d: Dispatch, ok: bool)
    modifies p, p.i, p.o
    ensures var r := Receive(old(p.i.pending));
      && p.i.pending == r.rest
      && (d.Routed? <==> r.payload.Some? && r.header.command == ForwardRequest)
      && (d.Routed? ==> d.request == r.payload.value)
      && (d.UnknownCommand? <==> r.payload.Some? && r.header.command != ForwardRequest)
      && (d.UnknownCommand? ==> d.command == r.header.command)
    ensures var r := Receive(old(p.i.pending));
      p.i.calls == old(p.i.calls) + [ReadCall(HeaderSize, 0)] + (if r.payload.Some? then [ReadCall(r.header.size, 0)] else [])
    ensures p.o.written == old(p.o.written) + (if d.Routed? then ReplyWrites(ForwardRequest, route(d.request)) else [])
    ensures var r := Receive(old(p.i.pending));
      && p.command == r.header.command && p.size == r.header.size
      && p.threadId == r.header.threadId && p.packetIndex == r.header.packetIndex
      && p.packetCount == r.header.packetCount && p.timestamp == r.header.timestamp
      && (d.BadFrame? ==> p.payload == old(p.payload))
      && (d.UnknownCommand? ==> p.payload == r.payload.value)
    ensures !d.Routed? ==> ok
    ensures d.Routed? ==> (ok <==> AllSendable(ForwardRequest, Replies(route(d.request))))
    ensures d.Routed? && ok ==> p.payload == LastPayload(d.request, route(d.request))
  {
    var received := p.Recv(0);
    if !received {
      return BadFrame, true;
    }
    if p.command != ForwardRequest {
      return UnknownCommand(p.command), true;
    }
    d := Routed(p.payload);
    var resp := new UsbResponse(p);
    ok := Respond(resp, route(p.payload));
  }

  /**
   * A packet with an unknown command does not derail the stream: the
   * command-1 packet that follows it is received whole on the next turn.
   */
  lemma UnknownThenForward(command: nat, junk: seq<byte>, request: seq<byte>, rest: seq<byte>)
    requires Sendable(command, junk) && command != ForwardRequest && |request| < Pow256(8)
    ensures var first := Receive(Flatten(SendWrites(command, junk, 0)) + Flatten(SendWrites(ForwardRequest, request, 0)) + rest);
      && first.payload == Some(junk) && first.header.command == command
      && Receive(first.rest) == Received(Header(Magic, ForwardRequest, |request|, 0, 0, 0, 0), Some(request), rest)
  {
    var a := Flatten(SendWrites(command, junk, 0));
    var b := Flatten(SendWrites(ForwardRequest, request, 0));
    AppendAssoc(a, b, rest);
    ReceiveWhatWasSent(command, junk, 0, b + rest);
    ReceiveWhatWasSent(ForwardRequest, request, 0, rest);
  }

  // ---------------------------------------------------------------------
  // Device choice
  // ---------------------------------------------------------------------

  datatype Device = Device(idVendor: nat, idProduct: nat)

  /** The custom-firmware identity, tried first. */
  const CustomVendor: nat := 0x16C0
  const CustomProduct: nat := 0x27E2
  /** The stock-firmware identity, tried second. */
  const StockVendor: nat := 0x057E
  const StockProduct: nat := 0x3000

  predicate Matches(d: Device, vendor: nat, product: nat)
  {
    d.idVendor == vendor && d.idProduct == product
  }

  /** The position of the first device with the given identity, or |bus| when there is none. */
  function FindFirst(bus: seq<Device>, vendor: nat, product: nat): (k: nat)
    ensures k <= |bus|
    ensures k < |bus| ==> Matches(bus[k], vendor, product)
    ensures forall j :: 0 <= j < k ==> !Matches(bus[j], vendor, product)
  {
    if bus == [] then 0
    else if Matches(bus[0], vendor, product) then 0
    else 1 + FindFirst(bus[1..], vendor, product)
  }

  /**
   * One probe round of getDevice over the devices on the bus, in
   * enumeration order: the first custom-firmware device if there is one,
   * else the first stock-firmware device, else None (getDevice then
   * sleeps and probes again).
   */
  function GetDevice(bus: seq<Device>): (r: Option<nat>)
    ensures r.Some? ==> r.value < |bus|
    ensures (exists k :: 0 <= k < |bus| && Matches(bus[k], CustomVendor, CustomProduct)) ==>
      && r.Some? && Matches(bus[r.value], CustomVendor, CustomProduct)
      && forall j :: 0 <= j < r.value ==> !Matches(bus[j], CustomVendor, CustomProduct)
    ensures (forall k :: 0 <= k < |bus| ==> !Matches(bus[k], CustomVendor, CustomProduct)) ==>
      && (r.Some? <==> exists k :: 0 <= k < |bus| && Matches(bus[k], StockVendor, StockProduct))
      && (r.Some? ==> Matches(bus[r.value], StockVendor, StockProduct)
                      && forall j :: 0 <= j < r.value ==> !Matches(bus[j], StockVendor, StockProduct))
  {
    var custom := FindFirst(bus, CustomVendor, CustomProduct);
    if custom < |bus| then Some(custom)
    else
      var stock := FindFirst(bus, StockVendor, StockProduct);
      if stock < |bus| then Some(stock) else None
  }
}
