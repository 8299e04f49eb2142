/**
 * Stream framing of libuio (libuio/src/socket.rs).
 *
 * A packet travels over a stream socket as one frame
 *     u16 little-endian payload length L | u16 little-endian fd count C | L payload bytes
 * while its file descriptors travel out of band. The receiver queues bytes and
 * descriptors separately and only binds the next C queued descriptors to a frame
 * once the whole frame and enough descriptors are present.
 */
module StreamFraming {
  import opened Wrappers
  import opened SeqLemmas

  /** One byte of the stream. */
  type Byte = b: int | 0 <= b < 256

  /** A received file descriptor, treated as an opaque number. */
  type Fd = nat

  /** Size of the frame header: two little-endian u16 fields. */
  const HeaderLen: nat := 4

  /** Largest value a u16 header field can hold. */
  const MaxU16: nat := 0xFFFF

  /** A complete message: payload bytes without header, and the descriptors sent with it. */
  datatype Packet = Packet(data: seq<Byte>, fds: seq<Fd>)

  /** A packet fits the wire format when both header fields fit in a u16. */
  predicate Encodable(p: Packet) {
    |p.data| <= MaxU16 && |p.fds| <= MaxU16
  }

  predicate AllEncodable(ps: seq<Packet>) {
    forall i :: 0 <= i < |ps| ==> Encodable(ps[i])
  }

  /** `u16::from_le_bytes`: the value of two little-endian bytes. */
  function U16FromLE(lo: Byte, hi: Byte): (v: nat)
    ensures v <= MaxU16
  {
    lo + 256 * hi
  }

  /** `u16::to_le_bytes`: two little-endian bytes that read back as `v`. */
  function LE16(v: nat): (b: seq<Byte>)
    requires v <= MaxU16
    ensures |b| == 2 && U16FromLE(b[0], b[1]) == v
  {
    [v % 256, v / 256]
  }

  /** The other direction of the u16 round trip: re-encoding a decoded value gives back its bytes. */
  lemma LE16OfU16(lo: Byte, hi: Byte)
    ensures LE16(U16FromLE(lo, hi)) == [lo, hi]
  {
  }

  /** The bytes `write_packet` hands to the socket for `p`: header, then payload. */
  function Frame(p: Packet): (f: seq<Byte>)
    requires Encodable(p)
    ensures |f| == HeaderLen + |p.data|
  {
    LE16(|p.data|) + LE16(|p.fds|) + p.data
  }

  /** The frames of several packets, back to back. */
  function Frames(ps: seq<Packet>): seq<Byte>
    requires AllEncodable(ps)
  {
    if ps == [] then [] else Frame(ps[0]) + Frames(ps[1..])
  }

  /** The descriptors of several packets, in packet order. */
  function Fds(ps: seq<Packet>): seq<Fd> {
    if ps == [] then [] else ps[0].fds + Fds(ps[1..])
  }

  /** Payload length field of a buffered header (bytes 0 and 1). */
  function PayloadLen(data: seq<Byte>): nat
    requires |data| >= 2
  {
    U16FromLE(data[0], data[1])
  }

  /** Descriptor count field of a buffered header (bytes 2 and 3). */
  function FdCount(data: seq<Byte>): nat
    requires |data| >= HeaderLen
  {
    U16FromLE(data[2], data[3])
  }

  /** The buffer front holds a whole frame and enough descriptors are queued for it. */
  predicate HasFrame(data: seq<Byte>, fds: seq<Fd>) {
    |data| >= HeaderLen && |data| >= HeaderLen + PayloadLen(data) && |fds| >= FdCount(data)
  }

  /** One packet cut off the front of the buffers, and what remains queued. */
  datatype Split = Split(packet: Packet, data: seq<Byte>, fds: seq<Fd>)

  /**
   * `try_drain_packet` with the length guard comparing against the whole frame
   * (header plus payload). Cuts one frame off the front exactly when one is there;
   * the packet takes L bytes after the header and the first C descriptors.
   */
  function Drain(data: seq<Byte>, fds: seq<Fd>): (r: Option<Split>)
    ensures r.Some? <==> HasFrame(data, fds)
    ensures r.Some? ==>
              && Encodable(r.value.packet)
              && |r.value.packet.data| == PayloadLen(data)
              && |r.value.packet.fds| == FdCount(data)
              && |r.value.data| == |data| - HeaderLen - PayloadLen(data)
              && |r.value.fds| == |fds| - FdCount(data)
  {
    if |data| < HeaderLen then None
    else
      var len := PayloadLen(data);
      if |data| < HeaderLen + len then None
      else
        var count := FdCount(data);
        if |fds| < count then None
        else Some(Split(Packet(data[HeaderLen..HeaderLen + len], fds[..count]), data[HeaderLen + len..], fds[count..]))
  }

  /**
   * Cutting a frame loses, duplicates and reorders nothing: the old bytes are the
   * packet's frame (header re-encoded from the packet) followed by the remaining
   * bytes, and the old descriptors are the packet's followed by the remaining ones.
   */
  lemma DrainConserves(data: seq<Byte>, fds: seq<Fd>)
    requires Drain(data, fds).Some?
    ensures var s := Drain(data, fds).value;
            data == Frame(s.packet) + s.data && fds == s.packet.fds + s.fds
  {
    var s := Drain(data, fds).value;
    var len := PayloadLen(data);
    LE16OfU16(data[0], data[1]);
    LE16OfU16(data[2], data[3]);
    assert data[..2] == LE16(|s.packet.data|) && data[2..HeaderLen] == LE16(|s.packet.fds|);
    assert data == data[..2] + data[2..HeaderLen] + s.packet.data + s.data;
    assert fds == s.packet.fds + s.fds;
  }

  /** What the guard sequence of `try_drain_packet` as written leads to. */
  datatype Attempt = NoFrame | SliceOutOfRange | Took(split: Split)

  /**
   * `try_drain_packet` as written: the second guard compares the buffer length
   * with the payload length alone, so a buffer holding the header and part of the
   * payload passes it and the payload slice runs past the end (a panic).
   */
  function DrainAsWritten(data: seq<Byte>, fds: seq<Fd>): (r: Attempt)
    ensures r == NoFrame ==> !HasFrame(data, fds)
    ensures r.Took? ==> HasFrame(data, fds) && Some(r.split) == Drain(data, fds)
    ensures r == SliceOutOfRange ==> !HasFrame(data, fds) && |data| >= HeaderLen && |data| >= PayloadLen(data)
  {
    if |data| < HeaderLen then NoFrame
    else
      var len := PayloadLen(data);
      if |data| < len then NoFrame
      else
        var count := FdCount(data);
        if |fds| < count then NoFrame
        else if |data| < HeaderLen + len then SliceOutOfRange
        else Took(Split(Packet(data[HeaderLen..HeaderLen + len], fds[..count]), data[HeaderLen + len..], fds[count..]))
  }

  /** Exactly the inputs on which the code as written slices out of range. */
  lemma AsWrittenPanicsExactly(data: seq<Byte>, fds: seq<Fd>)
    ensures DrainAsWritten(data, fds) == SliceOutOfRange <==>
              |data| >= HeaderLen && PayloadLen(data) <= |data| < HeaderLen + PayloadLen(data)
              && |fds| >= FdCount(data)
    ensures DrainAsWritten(data, fds) != SliceOutOfRange ==>
              (DrainAsWritten(data, fds).Took? <==> Drain(data, fds).Some?)
              && (Drain(data, fds).Some? ==> DrainAsWritten(data, fds).split == Drain(data, fds).value)
  {
  }

  /**
   * A header announcing a one-byte payload, received before its payload: the code
   * as written panics where the corrected guard waits for more bytes.
   */
  lemma GuardBugWitness()
    ensures DrainAsWritten([1, 0, 0, 0], []) == SliceOutOfRange
    ensures Drain([1, 0, 0, 0], []) == None
  {
    assert PayloadLen([1, 0, 0, 0]) == 1;
    assert FdCount([1, 0, 0, 0]) == 0;
  }

  /** Everything one `drain_packets` call yields: the packets, in order, and the leftover buffers. */
  datatype Drained = Drained(packets: seq<Packet>, data: seq<Byte>, fds: seq<Fd>)

  /**
   * `drain_packets`: cut frames off the front until none is complete. Every packet
   * fits the wire format and no complete frame is left behind; DrainAllConserves
   * shows that nothing is lost, duplicated or reordered.
   */
  function DrainAll(data: seq<Byte>, fds: seq<Fd>): (r: Drained)
    decreases |data|
    ensures AllEncodable(r.packets)
    ensures !HasFrame(r.data, r.fds)
  {
    match Drain(data, fds)
    case None => Drained([], data, fds)
    case Some(s) =>
      var rest := DrainAll(s.data, s.fds);
      Drained([s.packet] + rest.packets, rest.data, rest.fds)
  }

  /**
   * `drain_packets` loses, duplicates and reorders nothing: the returned packets'
   * frames followed by the leftover bytes are the original bytes, and their
   * descriptors followed by the leftover descriptors are the original descriptors.
   */
  lemma {:induction false} DrainAllConserves(data: seq<Byte>, fds: seq<Fd>)
    decreases |data|
    ensures var r := DrainAll(data, fds);
            Frames(r.packets) + r.data == data && Fds(r.packets) + r.fds == fds
  {
    var d := Drain(data, fds);
    if d.Some? {
      var s := d.value;
      var rest := DrainAll(s.data, s.fds);
      DrainAllConserves(s.data, s.fds);
      DrainConserves(data, fds);
      DrainAllUnfold(data, fds, s);
      ConservesStep(data, fds, s.packet, rest);
    }
  }

  /** The inductive step of DrainAllConserves: the first frame, then the rest. */
  lemma ConservesStep(data: seq<Byte>, fds: seq<Fd>, p: Packet, rest: Drained)
    requires Encodable(p) && AllEncodable(rest.packets)
    requires data == Frame(p) + (Frames(rest.packets) + rest.data)
    requires fds == p.fds + (Fds(rest.packets) + rest.fds)
    ensures AllEncodable([p] + rest.packets)
    ensures Frames([p] + rest.packets) + rest.data == data
    ensures Fds([p] + rest.packets) + rest.fds == fds
  {
    FramesCons(p, rest.packets);
    Assoc(Frame(p), Frames(rest.packets), rest.data);
    Assoc(p.fds, Fds(rest.packets), rest.fds);
  }

  /** Frames and descriptors of a packet list, split at its first packet. */
  lemma FramesCons(p: Packet, ps: seq<Packet>)
    requires Encodable(p) && AllEncodable(ps)
    ensures AllEncodable([p] + ps)
    ensures Frames([p] + ps) == Frame(p) + Frames(ps)
    ensures Fds([p] + ps) == p.fds + Fds(ps)
  {
    assert ([p] + ps)[0] == p && ([p] + ps)[1..] == ps;
  }

  /** Frames and descriptors of two packet lists, back to back. */
  lemma {:induction false} FramesAppend(ps: seq<Packet>, qs: seq<Packet>)
    requires AllEncodable(ps) && AllEncodable(qs)
    ensures AllEncodable(ps + qs)
    ensures Frames(ps + qs) == Frames(ps) + Frames(qs)
    ensures Fds(ps + qs) == Fds(ps) + Fds(qs)
  {
    if ps == [] {
      assert ps + qs == qs;
    } else {
      assert AllEncodable(ps[1..]);
      FramesAppend(ps[1..], qs);
      assert ps + qs == [ps[0]] + (ps[1..] + qs);
      FramesCons(ps[0], ps[1..] + qs);
      Assoc(Frame(ps[0]), Frames(ps[1..]), Frames(qs));
      Assoc(ps[0].fds, Fds(ps[1..]), Fds(qs));
      FramesCons(ps[0], ps[1..]);
    }
  }

  /** One unfolding of DrainAll once the first frame is known. */
  lemma DrainAllUnfold(data: seq<Byte>, fds: seq<Fd>, s: Split)
    requires Drain(data, fds) == Some(s)
    ensures var rest := DrainAll(s.data, s.fds);
            DrainAll(data, fds) == Drained([s.packet] + rest.packets, rest.data, rest.fds)
  {
  }

  /**
   * Round trip of one frame: when the buffer starts with the frame `write_packet`
   * builds for `p` and at least `|p.fds|` descriptors are queued, draining yields
   * p's payload with the first `|p.fds|` queued descriptors and leaves the rest.
   */
  lemma DrainFrame(p: Packet, rest: seq<Byte>, fds: seq<Fd>)
    requires Encodable(p) && |fds| >= |p.fds|
    ensures Drain(Frame(p) + rest, fds) == Some(Split(Packet(p.data, fds[..|p.fds|]), rest, fds[|p.fds|..]))
  {
    var d := Frame(p) + rest;
    var h1, h2 := LE16(|p.data|), LE16(|p.fds|);
    assert d[0] == h1[0] && d[1] == h1[1] && d[2] == h2[0] && d[3] == h2[1];
    assert PayloadLen(d) == |p.data| && FdCount(d) == |p.fds|;
    assert d[HeaderLen..HeaderLen + |p.data|] == p.data;
    assert d[HeaderLen + |p.data|..] == rest;
  }

  /** The round trip when the queued descriptors start with the packet's own. */
  lemma DrainFrameExact(p: Packet, rest: seq<Byte>, restFds: seq<Fd>)
    requires Encodable(p)
    ensures Drain(Frame(p) + rest, p.fds + restFds) == Some(Split(p, rest, restFds))
  {
    DrainFrame(p, rest, p.fds + restFds);
    assert (p.fds + restFds)[..|p.fds|] == p.fds;
    assert (p.fds + restFds)[|p.fds|..] == restFds;
  }

  /** A frame already cut from the front stays the same when more input is appended. */
  lemma DrainExtend(data: seq<Byte>, fds: seq<Fd>, more: seq<Byte>, moreFds: seq<Fd>)
    requires Drain(data, fds).Some?
    ensures var s := Drain(data, fds).value;
            Drain(data + more, fds + moreFds) == Some(Split(s.packet, s.data + more, s.fds + moreFds))
  {
    var s := Drain(data, fds).value;
    DrainConserves(data, fds);
    assert data + more == Frame(s.packet) + (s.data + more);
    assert fds + moreFds == s.packet.fds + (s.fds + moreFds);
    DrainFrameExact(s.packet, s.data + more, s.fds + moreFds);
  }

  /**
   * Draining is independent of how the input was split between reads: draining,
   * appending more and draining again yields the same packets, in the same order,
   * and the same leftover as appending first and draining once.
   */
  lemma DrainAllAppend(data: seq<Byte>, fds: seq<Fd>, more: seq<Byte>, moreFds: seq<Fd>)
    ensures var r1 := DrainAll(data, fds);
            var r2 := DrainAll(r1.data + more, r1.fds + moreFds);
            DrainAll(data + more, fds + moreFds) == Drained(r1.packets + r2.packets, r2.data, r2.fds)
  {
    var r1 := DrainAll(data, fds);
    var r2 := DrainAll(r1.data + more, r1.fds + moreFds);
    DrainAllConserves(data, fds);
    DrainAllConserves(r1.data + more, r1.fds + moreFds);
    AppendGlue(r1, r2, data, fds, more, moreFds);
    DrainAllFrames(r1.packets + r2.packets, r2.data, r2.fds);
  }

  /** The sequence algebra of DrainAllAppend: both drains together account for all input. */
  lemma AppendGlue(r1: Drained, r2: Drained, data: seq<Byte>, fds: seq<Fd>, more: seq<Byte>, moreFds: seq<Fd>)
    requires AllEncodable(r1.packets) && AllEncodable(r2.packets)
    requires Frames(r1.packets) + r1.data == data && Fds(r1.packets) + r1.fds == fds
    requires Frames(r2.packets) + r2.data == r1.data + more && Fds(r2.packets) + r2.fds == r1.fds + moreFds
    ensures AllEncodable(r1.packets + r2.packets)
    ensures Frames(r1.packets + r2.packets) + r2.data == data + more
    ensures Fds(r1.packets + r2.packets) + r2.fds == fds + moreFds
  {
    FramesAppend(r1.packets, r2.packets);
    Assoc(Frames(r1.packets), Frames(r2.packets), r2.data);
    Assoc(Frames(r1.packets), r1.data, more);
    Assoc(Fds(r1.packets), Fds(r2.packets), r2.fds);
    Assoc(Fds(r1.packets), r1.fds, moreFds);
  }

  /**
   * Stream round trip: a buffer holding the frames of `ps` followed by an incomplete
   * remainder drains to exactly `ps`, with only the remainder left queued.
   */
  lemma {:induction false} DrainAllFrames(ps: seq<Packet>, rest: seq<Byte>, restFds: seq<Fd>)
    requires AllEncodable(ps) && !HasFrame(rest, restFds)
    ensures DrainAll(Frames(ps) + rest, Fds(ps) + restFds) == Drained(ps, rest, restFds)
  {
    if ps == [] {
      assert Frames(ps) + rest == rest && Fds(ps) + restFds == restFds;
    } else {
      var p, tail := ps[0], ps[1..];
      assert AllEncodable(tail);
      var s := Split(p, Frames(tail) + rest, Fds(tail) + restFds);
      assert Frames(ps) + rest == Frame(p) + s.data;
      assert Fds(ps) + restFds == p.fds + s.fds;
      DrainFrameExact(p, s.data, s.fds);
      DrainAllFrames(tail, rest, restFds);
      assert DrainAll(s.data, s.fds) == Drained(tail, rest, restFds);
      assert [p] + tail == ps;
    }
  }

  /** The bytes and descriptors one `recvmsg` call delivered. */
  datatype Chunk = Chunk(bytes: seq<Byte>, fds: seq<Fd>)

  function ChunkBytes(chunks: seq<Chunk>): seq<Byte> {
    if chunks == [] then [] else chunks[0].bytes + ChunkBytes(chunks[1..])
  }

  function ChunkFds(chunks: seq<Chunk>): seq<Fd> {
    if chunks == [] then [] else chunks[0].fds + ChunkFds(chunks[1..])
  }

  /**
   * Successive `read_packets` calls, one per chunk: append the chunk to the buffers,
   * drain, and collect the packets after those already in `acc`.
   */
  function ReadEach(acc: Drained, chunks: seq<Chunk>): (r: Drained)
    decreases |chunks|
    ensures |r.packets| >= |acc.packets| && r.packets[..|acc.packets|] == acc.packets
    ensures AllEncodable(acc.packets) ==> AllEncodable(r.packets)
    ensures chunks != [] ==> !HasFrame(r.data, r.fds)
  {
    if chunks == [] then acc
    else
      var d := DrainAll(acc.data + chunks[0].bytes, acc.fds + chunks[0].fds);
      ReadEach(Drained(acc.packets + d.packets, d.data, d.fds), chunks[1..])
  }

  /** Reading the input chunk by chunk yields what reading all of it at once yields. */
  lemma {:induction false} ChunkingIrrelevant(acc: Drained, chunks: seq<Chunk>)
    requires !HasFrame(acc.data, acc.fds)
    decreases |chunks|
    ensures var d := DrainAll(acc.data + ChunkBytes(chunks), acc.fds + ChunkFds(chunks));
            ReadEach(acc, chunks) == Drained(acc.packets + d.packets, d.data, d.fds)
  {
    if chunks == [] {
      assert acc.data + ChunkBytes(chunks) == acc.data && acc.fds + ChunkFds(chunks) == acc.fds;
      assert acc.packets + [] == acc.packets;
    } else {
      var c := chunks[0];
      var d1 := DrainAll(acc.data + c.bytes, acc.fds + c.fds);
      var acc1 := Drained(acc.packets + d1.packets, d1.data, d1.fds);
      ChunkingIrrelevant(acc1, chunks[1..]);
      DrainAllAppend(acc.data + c.bytes, acc.fds + c.fds, ChunkBytes(chunks[1..]), ChunkFds(chunks[1..]));
      Assoc(acc.data, c.bytes, ChunkBytes(chunks[1..]));
      Assoc(acc.fds, c.fds, ChunkFds(chunks[1..]));
      var d2 := DrainAll(d1.data + ChunkBytes(chunks[1..]), d1.fds + ChunkFds(chunks[1..]));
      Assoc(acc.packets, d1.packets, d2.packets);
    }
  }

  /**
   * End-to-end round trip over a stream: however the frames of `ps` and their
   * descriptors are split across receive calls, a fresh buffer yields exactly `ps`
   * and ends empty.
   */
  lemma StreamRoundTrip(ps: seq<Packet>, chunks: seq<Chunk>)
    requires AllEncodable(ps)
    requires ChunkBytes(chunks) == Frames(ps) && ChunkFds(chunks) == Fds(ps)
    ensures ReadEach(Drained([], [], []), chunks) == Drained(ps, [], [])
  {
    var empty := Drained([], [], []);
    ChunkingIrrelevant(empty, chunks);
    DrainAllFrames(ps, [], []);
    EmptyUnit(Frames(ps));
    EmptyUnit(Fds(ps));
    EmptyUnit(ps);
  }

  /** Why `write_packet` refuses a packet (the source panics on both). */
  datatype WriteError = PacketTooBig | TooManyFds

  /**
   * The frame construction of `write_packet`: header fields and payload appended
   * one after the other. Fails when a header field does not fit in a u16, and
   * otherwise builds a frame that drains back to `p`.
   */
  method BuildFrame(p: Packet) returns (r: Result<seq<Byte>, WriteError>)
    ensures r.Failure? <==> !Encodable(p)
    ensures r == Failure(PacketTooBig) <==> |p.data| > MaxU16
    ensures r.Success? ==> r.value == Frame(p) && |r.value| == HeaderLen + |p.data|
    ensures r.Success? ==> Drain(r.value, p.fds) == Some(Split(p, [], []))
  {
    if |p.data| > MaxU16 {
      return Failure(PacketTooBig);
    }
    var dataWithHeader: seq<Byte> := [];
    dataWithHeader := dataWithHeader + LE16(|p.data|);
    if |p.fds| > MaxU16 {
      return Failure(TooManyFds);
    }
    dataWithHeader := dataWithHeader + LE16(|p.fds|);
    dataWithHeader := dataWithHeader + p.data;
    DrainFrame(p, [], p.fds);
    assert Frame(p) + [] == Frame(p);
    assert p.fds[..|p.fds|] == p.fds;
    return Success(dataWithHeader);
  }

  /** `PartialPacket`: bytes and descriptors received but not yet bound to a complete packet. */
  class PartialPacket {
    var data: seq<Byte>
    var fds: seq<Fd>

    /** `PartialPacket::new`: both queues empty. */
    constructor ()
      ensures data == [] && fds == []
    {
      data := [];
      fds := [];
    }

    /** `try_drain_packet` (with the corrected length guard). */
    method TryDrainPacket() returns (r: Option<Packet>)
      modifies this
      ensures var d := Drain(old(data), old(fds));
              if d.Some? then r == Some(d.value.packet) && data == d.value.data && fds == d.value.fds
              else r == None && data == old(data) && fds == old(fds)
    {
      if |data| < HeaderLen {
        return None;
      }
      var packetLength := U16FromLE(data[0], data[1]);
      if |data| < HeaderLen + packetLength {
        return None;
      }
      var numFds := U16FromLE(data[2], data[3]);
      if |fds| < numFds {
        return None;
      }
      var packetBytes := data[HeaderLen..HeaderLen + packetLength];
      data := data[HeaderLen + packetLength..];
      var packetFds := fds[..numFds];
      fds := fds[numFds..];
      return Some(Packet(packetBytes, packetFds));
    }

    /** `drain_packets`: every complete packet now buffered, in order. */
    method DrainPackets() returns (packets: seq<Packet>)
      modifies this
      ensures DrainAll(old(data), old(fds)) == Drained(packets, data, fds)
    {
      packets := [];
      while true
        invariant DrainAll(old(data), old(fds)) ==
                    Drained(packets + DrainAll(data, fds).packets, DrainAll(data, fds).data, DrainAll(data, fds).fds)
        decreases |data|
      {
        ghost var before := DrainAll(data, fds);
        var p := TryDrainPacket();
        if p.None? {
          break;
        }
        assert before.packets == [p.value] + DrainAll(data, fds).packets;
        packets := packets + [p.value];
      }
    }

    /** The buffer-append step of `read_packets`: received bytes and descriptors join the queues. */
    method Append(bytes: seq<Byte>, newFds: seq<Fd>)
      modifies this
      ensures data == old(data) + bytes && fds == old(fds) + newFds
    {
      data := data + bytes;
      fds := fds + newFds;
    }
  }

  /** Outcome of the single `recvmsg` call of `read_packets`. */
  datatype Recv = RecvFailed | Received(chunk: Chunk)

  /** `read_packets` reports a failed receive as an I/O error. */
  datatype IoError = RecvError

  /** `StreamChannel`: a connected socket and its receive buffer. */
  class StreamChannel {
    const fd: Fd
    const readBuffer: PartialPacket

    /** A channel as `accept` or `open` create it: nothing buffered yet. */
    constructor (fd: Fd)
      ensures this.fd == fd && fresh(readBuffer)
      ensures readBuffer.data == [] && readBuffer.fds == []
    {
      this.fd := fd;
      readBuffer := new PartialPacket();
    }

    /**
     * `read_packets`: one receive; its bytes and descriptors are appended to the
     * buffer and every packet that is now complete is returned.
     */
    method ReadPackets(recv: Recv) returns (r: Result<seq<Packet>, IoError>)
      modifies readBuffer
      ensures recv.RecvFailed? ==>
                r == Failure(RecvError) && readBuffer.data == old(readBuffer.data) && readBuffer.fds == old(readBuffer.fds)
      ensures recv.Received? ==>
                r.Success? &&
                DrainAll(old(readBuffer.data) + recv.chunk.bytes, old(readBuffer.fds) + recv.chunk.fds)
                == Drained(r.value, readBuffer.data, readBuffer.fds)
    {
      if recv.RecvFailed? {
        return Failure(RecvError);
      }
      readBuffer.Append(recv.chunk.bytes, recv.chunk.fds);
      var packets := readBuffer.DrainPackets();
      return Success(packets);
    }
  }
}
