/**
  The packet half of EosState (src/eos/eos.cpp:138-141) as the object its functions update, and the building
  of a frame.  Each method is proved against the function of EosReassembly with its meaning.
 */
module EosTransport {
  import opened Bytes
  import opened EosFraming
  import opened EosReassembly
  import opened EosInvariants

  lemma RemoveAtParts(table: seq<Reassembly>, i: nat)
    requires i < |table|
    ensures i <= |RemoveAt(table, i)|
    ensures RemoveAt(table, i)[..i] == table[..i] && RemoveAt(table, i)[i..] == table[i + 1..]
  {
  }

  // The checks at the head of EOS_ProcessFrame
  method CheckFrame(data: bytes) returns (f: Option<Fragment>)
    ensures f == ParseFrame(data)
  {
    if |data| < HEADER_SIZE {
      return None;
    }
    hide DecodeHeader, FragmentCount, MaxFragmentCount, ChunkSize, Offset;
    var header := DecodeHeader(data);
    if header.magic != FRAME_MAGIC || header.version != FRAME_VERSION || header.reserved != 0
       || (header.destinationSocket != NS_CLIENT && header.destinationSocket != NS_SERVER)
       || header.totalSize > MAX_ENGINE_PACKET_SIZE || header.fragmentCount == 0
       || header.fragmentCount > MaxFragmentCount() || header.fragmentIndex >= header.fragmentCount {
      return None;
    }
    if header.fragmentCount != FragmentCount(header.totalSize) {
      return None;
    }
    if |data| - HEADER_SIZE != ChunkSize(header.totalSize, header.fragmentIndex) {
      return None;
    }
    return Some(Fragment(header.destinationSocket, header.packetId, header.fragmentIndex, header.fragmentCount,
                         header.totalSize, data[HEADER_SIZE..]));
  }

  class Packets {
    var packetQueues: seq<seq<PendingPacket>>
    var queuedBytes: seq<nat>
    var reassemblies: seq<Reassembly>
    var reassemblyBytes: nat

    // Every packet ever handed to EnqueuePacketLocked by ProcessFrame, with its key.
    ghost var emitted: seq<Emission>

    // Every counter is the sum it stands for; as they are nats, no subtraction below underflows.
    ghost predicate Valid()
      reads this
    {
      && |packetQueues| == 2 && |queuedBytes| == 2
      && queuedBytes[0] == QueueBytes(packetQueues[0])
      && queuedBytes[1] == QueueBytes(packetQueues[1])
      && reassemblyBytes == TableBytes(reassemblies)
    }

    ghost function Model(): State
      reads this
    {
      State(packetQueues, reassemblies)
    }

    constructor ()
      ensures Valid() && Model() == INITIAL && emitted == []
    {
      packetQueues, queuedBytes, reassemblies, reassemblyBytes := [[], []], [0, 0], [], 0;
      emitted := [];
    }

    method ResetPacketQueue()
      modifies this
      ensures Valid() && Model() == INITIAL && emitted == old(emitted)
    {
      packetQueues := [[], []];
      queuedBytes := [0, 0];
      reassemblies := [];
      reassemblyBytes := 0;
    }

    method EraseReassembly(i: nat)
      requires Valid() && i < |reassemblies|
      modifies this`reassemblies, this`reassemblyBytes
      ensures Valid() && reassemblies == RemoveAt(old(reassemblies), i)
    {
      TableBytesRemoveAt(reassemblies, i);
      reassemblyBytes := reassemblyBytes - |reassemblies[i].data|;
      reassemblies := RemoveAt(reassemblies, i);
    }

    method CleanupReassembliesLocked(now: real)
      requires Valid()
      modifies this`reassemblies, this`reassemblyBytes
      ensures Valid() && reassemblies == Cleanup(old(reassemblies), now)
      ensures forall x :: x in reassemblies <==> x in old(reassemblies) && now - x.lastUpdate <= 5.0
      ensures Subsequence(reassemblies, old(reassemblies))
    {
      ghost var table := reassemblies;
      hide TableBytes, QueueBytes, RemoveAt, Subsequence;
      var i := 0;
      while i < |reassemblies|
        invariant Valid() && i <= |reassemblies|
        invariant Cleanup(old(reassemblies), now) == reassemblies[..i] + Cleanup(reassemblies[i..], now)
        decreases |reassemblies| - i
      {
        ghost var rest := reassemblies[i..];
        assert rest[1..] == reassemblies[i + 1..];
        if now - reassemblies[i].lastUpdate <= REASSEMBLY_LIFETIME {
          assert reassemblies[..i + 1] == reassemblies[..i] + [rest[0]];
          i := i + 1;
        } else {
          RemoveAtParts(reassemblies, i);
          EraseReassembly(i);
        }
      }
      assert reassemblies[..i] == reassemblies;
      StaysFiveSeconds(table, now);
    }

    method MakeReassemblyRoomLocked(size: nat)
      requires Valid()
      modifies this`reassemblies, this`reassemblyBytes
      ensures Valid() && reassemblies == MakeRoom(old(reassemblies), size)
    {
      hide TableBytes, QueueBytes;
      while reassemblies != []
            && (|reassemblies| >= MAX_REASSEMBLIES || reassemblyBytes + size > MAX_REASSEMBLY_BYTES)
        invariant Valid()
        invariant MakeRoom(old(reassemblies), size) == MakeRoom(reassemblies, size)
        decreases |reassemblies|
      {
        EraseReassembly(Oldest(reassemblies));
      }
    }

    method PopFront(socket: Socket) returns (pending: PendingPacket)
      requires Valid() && packetQueues[socket] != []
      modifies this`packetQueues, this`queuedBytes
      ensures Valid() && pending == old(packetQueues)[socket][0]
      ensures packetQueues == old(packetQueues)[socket := old(packetQueues)[socket][1..]]
    {
      pending := packetQueues[socket][0];
      queuedBytes := queuedBytes[socket := queuedBytes[socket] - |pending.payload|];
      packetQueues := packetQueues[socket := packetQueues[socket][1..]];
    }

    method EnqueuePacketLocked(socket: Socket, packet: PendingPacket)
      requires Valid()
      modifies this`packetQueues, this`queuedBytes
      ensures Valid()
      ensures packetQueues == old(packetQueues)[socket := Enqueue(old(packetQueues)[socket], packet)]
    {
      ghost var bytesOf := QueueBytes([packet]);
      assert bytesOf == |packet.payload|;
      hide QueueBytes, TableBytes;
      while packetQueues[socket] != []
            && (|packetQueues[socket]| >= MAX_QUEUED_PACKETS
                || queuedBytes[socket] + |packet.payload| > MAX_QUEUED_BYTES)
        invariant Valid()
        invariant packetQueues == old(packetQueues)[socket := packetQueues[socket]]
        invariant DropOldest(old(packetQueues)[socket], packet) == DropOldest(packetQueues[socket], packet)
        decreases |packetQueues[socket]|
      {
        var dropped := PopFront(socket);
      }
      if |packet.payload| <= MAX_QUEUED_BYTES {
        QueueBytesConcat(packetQueues[socket], [packet]);
        queuedBytes := queuedBytes[socket := queuedBytes[socket] + |packet.payload|];
        packetQueues := packetQueues[socket := packetQueues[socket] + [packet]];
      }
    }

    // The tail of EOS_ProcessFrame: entry `found` takes the fragment.
    method CollectFragment(found: nat, f: Fragment, now: real)
      requires Valid() && found < |reassemblies|
      requires f.index < |reassemblies[found].receivedFragments|
      requires Offset(f.index) + |f.payload| <= |reassemblies[found].data|
      modifies this
      ensures Valid()
      ensures var o := CollectAt(old(Model()), old(reassemblies), found, f, now);
              Model() == o.state && emitted == old(emitted) + o.emitted
    {
      ghost var table := reassemblies;
      var entry := reassemblies[found].(lastUpdate := now);
      if !entry.receivedFragments[f.index] {
        var offset := f.index * FRAGMENT_PAYLOAD_SIZE;
        entry := entry.(data := entry.data[..offset] + f.payload + entry.data[offset + |f.payload|..]);
        entry := entry.(receivedFragments := entry.receivedFragments[f.index := true]);
        entry := entry.(receivedCount := entry.receivedCount + 1);
      }
      assert entry == Store(table[found], f, now);
      TableBytesUpdate(reassemblies, found, entry);
      reassemblies := reassemblies[found := entry];
      if entry.receivedCount != |entry.receivedFragments| {
        return;
      }
      EraseReassembly(found);
      assert reassemblies == RemoveAt(table, found);
      EnqueuePacketLocked(entry.key.destinationSocket, PendingPacket(entry.key.sender, entry.data));
      emitted := emitted + [Emission(entry.key, entry.data)];
    }

    method ProcessFragment(sender: Address, f: Fragment, now: real)
      requires Valid() && WellFormed(f)
      modifies this
      ensures Valid()
      ensures var o := Accept(old(Model()), sender, f, now);
              Model() == o.state && emitted == old(emitted) + o.emitted
    {
      hide FragmentCount, ChunkSize, Offset, Enqueue, Cleanup, MakeRoom;
      var key := KeyOf(sender, f);
      if f.count == 1 {
        EnqueuePacketLocked(f.destinationSocket, PendingPacket(sender, f.payload));
        emitted := emitted + [Emission(key, f.payload)];
        return;
      }
      CleanupReassembliesLocked(now);
      var found := Find(reassemblies, key);
      if found == |reassemblies| {
        MakeReassemblyRoomLocked(f.totalSize);
        var assembly := NewEntry(key, f, now);
        TableBytesAppend(reassemblies, assembly);
        reassemblyBytes := reassemblyBytes + |assembly.data|;
        found := |reassemblies|;
        reassemblies := reassemblies + [assembly];
      } else if |reassemblies[found].data| != f.totalSize || |reassemblies[found].receivedFragments| != f.count {
        EraseReassembly(found);
        return;
      }
      CollectFragment(found, f, now);
    }

    method ProcessFrame(sender: Address, data: bytes, now: real)
      requires Valid()
      modifies this
      ensures Valid()
      ensures var o := EosReassembly.ProcessFrame(old(Model()), sender, data, now);
              Model() == o.state && emitted == old(emitted) + o.emitted
    {
      hide ParseFrame, Accept;
      var f := CheckFrame(data);
      if f.Some? {
        ParsedIsWellFormed(data);
        ProcessFragment(sender, f.value, now);
      }
    }

    method ReceivePacket(destinationSocket: int, packet: NetPacket?, clientPort: uint16, hostPort: uint16)
      returns (ok: bool)
      requires Valid()
      requires packet != null && packet.data != null ==>
                 destinationSocket == NS_CLIENT || destinationSocket == NS_SERVER ==>
                   var queue := packetQueues[destinationSocket];
                   queue != [] ==> |queue[0].payload| <= packet.data.Length
      modifies this`packetQueues, this`queuedBytes, packet,
               if packet != null && packet.data != null then {packet.data} else {}
      ensures Valid()
      ensures ok <==> packet != null && old(packet.data) != null
                      && (destinationSocket == NS_CLIENT || destinationSocket == NS_SERVER)
                      && old(packetQueues)[destinationSocket] != []
      ensures !ok ==> Model() == old(Model())
                      && (packet != null ==> packet.Header() == old(packet.Header()) && packet.data == old(packet.data))
                      && (packet != null && packet.data != null ==> packet.data[..] == old(packet.data[..]))
      ensures ok ==>
                var pending := old(packetQueues)[destinationSocket][0];
                var n := |pending.payload|;
                && Model() == Receive(old(Model()), destinationSocket)
                && packet.Header() == PacketHeader(pending.sender, RemotePort(destinationSocket, clientPort, hostPort),
                                                   destinationSocket, n, n, false)
                && packet.data == old(packet.data)
                && packet.data[..] == pending.payload + old(packet.data[n..])
    {
      if packet == null || packet.data == null || (destinationSocket != NS_CLIENT && destinationSocket != NS_SERVER) {
        return false;
      }
      if packetQueues[destinationSocket] == [] {
        return false;
      }
      var pending := PopFront(destinationSocket);
      assert Model() == Receive(old(Model()), destinationSocket);
      hide QueueBytes, Receive;
      packet.Fill(pending, destinationSocket, RemotePort(destinationSocket, clientPort, hostPort));
      return true;
    }
  }

  // netpacket_t, the fields the transport fills in (src/engine/net.h:81-93)

  datatype PacketHeader = PacketHeader(
    fromAddress: Address, fromPort: uint16, source: int, size: int, wireSize: int, stream: bool)

  class NetPacket {
    var fromAddress: Address
    var fromPort: uint16
    var source: int
    var size: int
    var wireSize: int
    var stream: bool
    var data: array?<uint8>

    ghost function Header(): PacketHeader
      reads this
    {
      PacketHeader(fromAddress, fromPort, source, size, wireSize, stream)
    }

    method Fill(pending: PendingPacket, socket: Socket, port: uint16)
      requires data != null && |pending.payload| <= data.Length
      modifies this, data
      ensures data == old(data)
      ensures Header() == PacketHeader(pending.sender, port, socket, |pending.payload|, |pending.payload|, false)
      ensures data[..] == pending.payload + old(data[|pending.payload|..])
    {
      if |pending.payload| != 0 {
        CopyInto(data, 0, pending.payload);
      }
      fromAddress := pending.sender;
      fromPort := port;
      source := socket;
      size := |pending.payload|;
      wireSize := size;
      stream := false;
    }
  }

  // htons on a little-endian machine
  function HostToNetwork(port: uint16): uint16 {
    FromLE16(port / 0x100, port % 0x100)
  }

  // In memory the upper byte comes first.
  lemma NetworkOrder(port: uint16)
    ensures LE16(HostToNetwork(port)) == [port / 0x100, port % 0x100]
  {
  }

  // A server hears from clients and a client from its host; where that port is not configured the other one stands
  // in for it.
  lemma RemotePortIs(clientPort: uint16, hostPort: uint16)
    ensures clientPort != 0 ==> RemotePort(NS_SERVER, clientPort, hostPort) == HostToNetwork(clientPort)
    ensures hostPort != 0 ==> RemotePort(NS_CLIENT, clientPort, hostPort) == HostToNetwork(hostPort)
    ensures clientPort == 0 ==> RemotePort(NS_SERVER, clientPort, hostPort) == HostToNetwork(hostPort)
    ensures hostPort == 0 ==> RemotePort(NS_CLIENT, clientPort, hostPort) == HostToNetwork(clientPort)
    ensures HostToNetwork(clientPort) == HostToNetwork(hostPort) <==> clientPort == hostPort
  {
    NetworkOrder(clientPort);
    NetworkOrder(hostPort);
  }

  // The peer of a server is a client: its port is the client port, or the host port if there is none.
  function RemotePort(socket: Socket, clientPort: uint16, hostPort: uint16): uint16 {
    HostToNetwork(if socket == NS_SERVER then (if clientPort != 0 then clientPort else hostPort)
                  else if hostPort != 0 then hostPort else clientPort)
  }

  // What the SDK answers to one EOS_P2P_SendPacket.
  datatype SendResult = Success | InvalidAuth | OtherError

  function GetDestinationSocket(sourceSocket: int): int {
    if sourceSocket == NS_CLIENT then NS_SERVER
    else if sourceSocket == NS_SERVER then NS_CLIENT
    else -1
  }

  function NextPacketId(id: int): uint32 {
    (id + 1) % 0x1_0000_0000
  }

  ghost function Frames(payload: bytes, packetId: uint32, socket: Socket): (r: seq<bytes>)
    requires Sendable(payload)
    ensures |r| == FragmentCount(|payload|)
  {
    seq(FragmentCount(|payload|), i requires 0 <= i < FragmentCount(|payload|) => Frame(payload, packetId, socket, i))
  }

  // The body of the fragment loop up to the SDK call: the frame is rebuilt in one buffer, and the
  // bytes of it that are sent hold nothing of the frame before.
  method BuildFrame(frame: array<uint8>, data: bytes, packetId: uint32, socket: Socket, i: nat, fragmentCount: uint16)
    returns (length: nat)
    requires Sendable(data) && i < FragmentCount(|data|) == fragmentCount
    requires frame.Length == HEADER_SIZE + FRAGMENT_PAYLOAD_SIZE
    modifies frame
    ensures length <= frame.Length && frame[..length] == Frame(data, packetId, socket, i)
  {
    hide EncodeHeader;
    FragmentBounds(|data|, i);
    var offset := i * FRAGMENT_PAYLOAD_SIZE;
    var payloadSize := Min(FRAGMENT_PAYLOAD_SIZE, |data| - offset);
    var header := Header(FRAME_MAGIC, FRAME_VERSION, socket, i, fragmentCount, 0, packetId, |data|);
    CopyInto(frame, 0, EncodeHeader(header));
    if payloadSize != 0 {
      CopyInto(frame, HEADER_SIZE, data[offset..offset + payloadSize]);
    }
    length := HEADER_SIZE + payloadSize;
    assert frame[..length] == frame[..HEADER_SIZE] + frame[HEADER_SIZE..length];
    assert frame[..HEADER_SIZE] == EncodeHeader(header);
    assert frame[HEADER_SIZE..length] == Chunk(data, i);
  }
}
