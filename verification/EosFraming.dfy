/**
  The wire format of the EOS P2P transport (src/eos/eos.cpp): an engine packet is cut into
  fragments, each carried in a frame of a 20-byte little-endian header and a slice of the packet.
 */
module EosFraming {
  import opened Bytes

  // EOS_P2P_MAX_PACKET_SIZE - sizeof(EosPacketHeader).  The SDK constant is not part of this
  // model: the payload size is any value for which a fragment count fits its 16-bit field.
  type PayloadSize = p: int | 5 <= p witness 5
  const FRAGMENT_PAYLOAD_SIZE: PayloadSize

  const HEADER_SIZE := 20
  const FRAME_MAGIC: uint32 := 0x31534E49
  const FRAME_VERSION: uint8 := 1
  const MAX_ENGINE_PACKET_SIZE := 256 * 1024
  const NS_CLIENT := 0
  const NS_SERVER := 1

  type Socket = s: int | 0 <= s < 2

  datatype Header = Header(
    magic: uint32, version: uint8, destinationSocket: uint8, fragmentIndex: uint16,
    fragmentCount: uint16, reserved: uint16, packetId: uint32, totalSize: uint32)

  // What is left of an accepted frame once its header is checked.
  datatype Fragment = Fragment(
    destinationSocket: Socket, packetId: uint32, index: nat, count: nat, totalSize: nat, payload: bytes)

  function EncodeHeader(h: Header): (r: bytes)
    ensures |r| == HEADER_SIZE
  {
    LE32(h.magic) + [h.version, h.destinationSocket] + LE16(h.fragmentIndex) + LE16(h.fragmentCount)
    + LE16(h.reserved) + LE32(h.packetId) + LE32(h.totalSize)
  }

  function DecodeHeader(b: bytes): Header
    requires |b| >= HEADER_SIZE
  {
    Header(FromLE32(b[0], b[1], b[2], b[3]), b[4], b[5], FromLE16(b[6], b[7]), FromLE16(b[8], b[9]),
           FromLE16(b[10], b[11]), FromLE32(b[12], b[13], b[14], b[15]), FromLE32(b[16], b[17], b[18], b[19]))
  }

  lemma DecodeEncodeHeader(h: Header, rest: bytes)
    ensures DecodeHeader(EncodeHeader(h) + rest) == h
  {
    LE32RoundTrip(h.magic);
    LE16RoundTrip(h.fragmentIndex);
    LE16RoundTrip(h.fragmentCount);
    LE16RoundTrip(h.reserved);
    LE32RoundTrip(h.packetId);
    LE32RoundTrip(h.totalSize);
    hide LE16, LE32, FromLE16, FromLE32;
  }

  lemma EncodeDecodeHeader(b: bytes)
    requires |b| >= HEADER_SIZE
    ensures EncodeHeader(DecodeHeader(b)) == b[..HEADER_SIZE]
  {
    LE32OfBytes(b[0], b[1], b[2], b[3]);
    LE16OfBytes(b[6], b[7]);
    LE16OfBytes(b[8], b[9]);
    LE16OfBytes(b[10], b[11]);
    LE32OfBytes(b[12], b[13], b[14], b[15]);
    LE32OfBytes(b[16], b[17], b[18], b[19]);
    hide LE16, LE32, FromLE16, FromLE32;
  }

  // Two and four bytes as a number, the first one counting least
  function Two(a: int, b: int): int {
    a + 0x100 * b
  }

  function Four(a: int, b: int, c: int, d: int): int {
    a + 0x100 * b + 0x1_0000 * c + 0x100_0000 * d
  }

  // Where each field stands
  lemma HeaderLayout(h: Header)
    ensures var b := EncodeHeader(h);
            && Four(b[0], b[1], b[2], b[3]) == h.magic && b[4] == h.version && b[5] == h.destinationSocket
            && Two(b[6], b[7]) == h.fragmentIndex && Two(b[8], b[9]) == h.fragmentCount
            && Two(b[10], b[11]) == h.reserved && Four(b[12], b[13], b[14], b[15]) == h.packetId
            && Four(b[16], b[17], b[18], b[19]) == h.totalSize
  {
    DecodeEncodeHeader(h, []);
    assert EncodeHeader(h) + [] == EncodeHeader(h);
    hide EncodeHeader, LE16, LE32;
  }

  function FragmentCount(size: nat): (n: nat)
    ensures n >= 1
  {
    Max(1, (size + FRAGMENT_PAYLOAD_SIZE - 1) / FRAGMENT_PAYLOAD_SIZE)
  }

  // EOS_MAX_FRAGMENT_COUNT
  function MaxFragmentCount(): nat {
    (MAX_ENGINE_PACKET_SIZE + FRAGMENT_PAYLOAD_SIZE - 1) / FRAGMENT_PAYLOAD_SIZE
  }

  function Offset(index: nat): nat {
    index * FRAGMENT_PAYLOAD_SIZE
  }

  // The fragment byte x of a packet travels in.
  function IndexAt(x: nat): nat {
    x / FRAGMENT_PAYLOAD_SIZE
  }

  lemma OffsetMonotone(i: nat, j: nat)
    requires i <= j
    ensures Offset(i) <= Offset(j)
    ensures Offset(i + 1) == Offset(i) + FRAGMENT_PAYLOAD_SIZE
  {
    assert (j - i) * FRAGMENT_PAYLOAD_SIZE >= 0;
  }

  lemma CeilDiv(size: nat)
    ensures var q := (size + FRAGMENT_PAYLOAD_SIZE - 1) / FRAGMENT_PAYLOAD_SIZE;
            0 <= q && size <= Offset(q) < size + FRAGMENT_PAYLOAD_SIZE
  {
  }

  // The fragments of a packet tile it: every index starts inside it and the last one ends it.
  lemma FragmentBounds(size: nat, i: nat)
    requires i < FragmentCount(size)
    ensures Offset(i) <= size && (size > 0 ==> Offset(i) < size)
    ensures i + 1 < FragmentCount(size) ==> Offset(i) + FRAGMENT_PAYLOAD_SIZE < size
    ensures i + 1 == FragmentCount(size) ==> size <= Offset(i) + FRAGMENT_PAYLOAD_SIZE
  {
    CeilDiv(size);
    var q := (size + FRAGMENT_PAYLOAD_SIZE - 1) / FRAGMENT_PAYLOAD_SIZE;
    if q == 0 {
      assert size == 0;
    } else {
      OffsetMonotone(i + 1, q);
      if i + 1 < q {
        OffsetMonotone(i + 2, q);
        OffsetMonotone(i + 1, i + 2);
      }
    }
  }

  lemma FragmentCountBounded(size: nat)
    requires size <= MAX_ENGINE_PACKET_SIZE
    ensures FragmentCount(size) <= MaxFragmentCount() <= 0xFFFF
  {
    CeilDiv(size);
    CeilDiv(MAX_ENGINE_PACKET_SIZE);
    var q := (size + FRAGMENT_PAYLOAD_SIZE - 1) / FRAGMENT_PAYLOAD_SIZE;
    var m := MaxFragmentCount();
    if q > m {
      OffsetMonotone(m + 1, q);
      OffsetMonotone(m, m + 1);
    }
    if m > 0xFFFF {
      OffsetMonotone(0x1_0000, m);
    }
  }

  function ChunkSize(size: nat, i: nat): (r: nat)
    requires i < FragmentCount(size)
    ensures Offset(i) + r <= size
  {
    FragmentBounds(size, i);
    Min(FRAGMENT_PAYLOAD_SIZE, size - Offset(i))
  }

  function Chunk(payload: bytes, i: nat): (r: bytes)
    requires i < FragmentCount(|payload|)
    ensures |r| == ChunkSize(|payload|, i)
  {
    FragmentBounds(|payload|, i);
    payload[Offset(i)..Offset(i) + ChunkSize(|payload|, i)]
  }

  lemma WholeChunk(payload: bytes)
    requires FragmentCount(|payload|) == 1
    ensures Chunk(payload, 0) == payload
  {
    FragmentBounds(|payload|, 0);
  }

  predicate Sendable(payload: bytes) {
    |payload| <= MAX_ENGINE_PACKET_SIZE
  }

  // The header EOS_SendPacket puts before fragment i of a packet.
  function FrameHeader(size: nat, packetId: uint32, socket: Socket, i: nat): Header
    requires size <= MAX_ENGINE_PACKET_SIZE && i < FragmentCount(size)
  {
    FragmentCountBounded(size);
    Header(FRAME_MAGIC, FRAME_VERSION, socket, i, FragmentCount(size), 0, packetId, size)
  }

  // Frame i of a packet, byte for byte.
  function Frame(payload: bytes, packetId: uint32, socket: Socket, i: nat): bytes
    requires Sendable(payload) && i < FragmentCount(|payload|)
  {
    EncodeHeader(FrameHeader(|payload|, packetId, socket, i)) + Chunk(payload, i)
  }

  predicate HeaderAccepted(h: Header) {
    && h.magic == FRAME_MAGIC && h.version == FRAME_VERSION && h.reserved == 0
    && (h.destinationSocket == NS_CLIENT || h.destinationSocket == NS_SERVER)
    && h.totalSize <= MAX_ENGINE_PACKET_SIZE
    && h.fragmentCount != 0 && h.fragmentCount <= MaxFragmentCount()
    && h.fragmentIndex < h.fragmentCount
    && h.fragmentCount == FragmentCount(h.totalSize)
  }

  // The checks EOS_ProcessFrame makes before it touches any state.
  function ParseFrame(data: bytes): Option<Fragment> {
    if |data| < HEADER_SIZE then None
    else
      var h := DecodeHeader(data);
      if !HeaderAccepted(h) then None
      else if |data| - HEADER_SIZE != ChunkSize(h.totalSize, h.fragmentIndex) then None
      else Some(Fragment(h.destinationSocket, h.packetId, h.fragmentIndex, h.fragmentCount, h.totalSize,
                         data[HEADER_SIZE..]))
  }

  // Every frame begins with the letters INS1, the version 1 and the socket it is for.
  lemma FrameBegins(payload: bytes, packetId: uint32, socket: Socket, i: nat)
    requires Sendable(payload) && i < FragmentCount(|payload|)
    ensures Frame(payload, packetId, socket, i)[..6]
         == ['I' as int, 'N' as int, 'S' as int, '1' as int, 1, socket]
  {
    var b := EncodeHeader(FrameHeader(|payload|, packetId, socket, i));
    HeaderLayout(FrameHeader(|payload|, packetId, socket, i));
    hide EncodeHeader, FragmentCount;
    MagicBytes(b[0], b[1], b[2], b[3]);
  }

  lemma MagicBytes(a: uint8, b: uint8, c: uint8, d: uint8)
    requires Four(a, b, c, d) == FRAME_MAGIC
    ensures a == 'I' as int && b == 'N' as int && c == 'S' as int && d == '1' as int
  {
  }

  lemma ParseOfFrame(payload: bytes, packetId: uint32, socket: Socket, i: nat)
    requires Sendable(payload) && i < FragmentCount(|payload|)
    ensures ParseFrame(Frame(payload, packetId, socket, i)) ==
            Some(Fragment(socket, packetId, i, FragmentCount(|payload|), |payload|, Chunk(payload, i)))
  {
    hide EncodeHeader, DecodeHeader;
    FragmentCountBounded(|payload|);
    DecodeEncodeHeader(FrameHeader(|payload|, packetId, socket, i), Chunk(payload, i));
    assert Frame(payload, packetId, socket, i)[HEADER_SIZE..] == Chunk(payload, i);
  }

  // A packet whose fragment at the place `data` claims holds the bytes `data` carries.
  function Witness(f: Fragment): (r: bytes)
    requires f.index < FragmentCount(f.totalSize) && |f.payload| == ChunkSize(f.totalSize, f.index)
    ensures |r| == f.totalSize && Chunk(r, f.index) == f.payload
  {
    FragmentBounds(f.totalSize, f.index);
    var offset := Offset(f.index);
    Zeros(offset) + f.payload + Zeros(f.totalSize - offset - |f.payload|)
  }

  // The receiver accepts a byte string exactly when some packet has it as one of its frames.
  lemma AcceptedIffFrame(data: bytes)
    ensures ParseFrame(data).Some? <==>
            exists payload: bytes, packetId: uint32, socket: Socket, i: nat ::
              |payload| <= 256 * 1024 && i < FragmentCount(|payload|) && data == Frame(payload, packetId, socket, i)
  {
    hide EncodeHeader, DecodeHeader;
    if exists payload: bytes, packetId: uint32, socket: Socket, i: nat ::
        |payload| <= 256 * 1024 && i < FragmentCount(|payload|) && data == Frame(payload, packetId, socket, i) {
      var payload: bytes, packetId: uint32, socket: Socket, i: nat :|
        |payload| <= 256 * 1024 && i < FragmentCount(|payload|) && data == Frame(payload, packetId, socket, i);
      ParseOfFrame(payload, packetId, socket, i);
    }
    if ParseFrame(data).Some? {
      var f := ParseFrame(data).value;
      var payload := Witness(f);
      EncodeDecodeHeader(data);
      assert data == data[..HEADER_SIZE] + data[HEADER_SIZE..];
      assert data == Frame(payload, f.packetId, f.destinationSocket, f.index);
    }
  }
}
