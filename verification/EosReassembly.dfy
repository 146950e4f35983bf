/**
  The packet queues and the reassembly table of src/eos/eos.cpp as values, and what one arriving
  frame does to them.  The byte counters of the source are absent here: class EosTransport.Packets
  keeps them, and proves them equal to the sums below.
 */
module EosReassembly {
  import opened Bytes
  import opened EosFraming

  const MAX_QUEUED_BYTES := 8 * 1024 * 1024
  const MAX_QUEUED_PACKETS := 512
  const MAX_REASSEMBLY_BYTES := 8 * 1024 * 1024
  const MAX_REASSEMBLIES := 64
  const REASSEMBLY_LIFETIME := 5.0

  // A sender's in6_addr.
  type Address = a: bytes | |a| == 16 witness Zeros(16)

  datatype Key = Key(sender: Address, packetId: uint32, destinationSocket: Socket)

  datatype PendingPacket = PendingPacket(sender: Address, payload: bytes)

  datatype Reassembly = Reassembly(
    key: Key, data: bytes, receivedFragments: seq<bool>, receivedCount: nat, lastUpdate: real)

  // What EOS_ProcessFrame hands to EOS_EnqueuePacketLocked, with the key it was collected under.
  datatype Emission = Emission(key: Key, payload: bytes)

  datatype State = State(queues: seq<seq<PendingPacket>>, reassemblies: seq<Reassembly>)

  datatype Outcome = Outcome(state: State, emitted: seq<Emission>)

  function CountTrue(flags: seq<bool>): (n: nat)
    ensures n <= |flags|
  {
    if flags == [] then 0 else (if flags[|flags| - 1] then 1 else 0) + CountTrue(flags[..|flags| - 1])
  }

  function TableBytes(table: seq<Reassembly>): nat {
    if table == [] then 0 else |table[0].data| + TableBytes(table[1..])
  }

  function QueueBytes(queue: seq<PendingPacket>): nat {
    if queue == [] then 0 else |queue[0].payload| + QueueBytes(queue[1..])
  }

  lemma {:induction false} TableBytesConcat(a: seq<Reassembly>, b: seq<Reassembly>)
    ensures TableBytes(a + b) == TableBytes(a) + TableBytes(b)
  {
    if a == [] {
      assert a + b == b;
    } else {
      assert (a + b)[1..] == a[1..] + b;
      TableBytesConcat(a[1..], b);
    }
  }

  lemma {:induction false} QueueBytesConcat(a: seq<PendingPacket>, b: seq<PendingPacket>)
    ensures QueueBytes(a + b) == QueueBytes(a) + QueueBytes(b)
  {
    if a == [] {
      assert a + b == b;
    } else {
      assert (a + b)[1..] == a[1..] + b;
      QueueBytesConcat(a[1..], b);
    }
  }

  function RemoveAt<T>(s: seq<T>, i: nat): (r: seq<T>)
    requires i < |s|
    ensures |r| == |s| - 1
  {
    s[..i] + s[i + 1..]
  }

  lemma TableBytesRemoveAt(table: seq<Reassembly>, i: nat)
    requires i < |table|
    ensures TableBytes(table) == TableBytes(RemoveAt(table, i)) + |table[i].data|
  {
    assert table == table[..i] + ([table[i]] + table[i + 1..]);
    TableBytesConcat(table[..i], [table[i]] + table[i + 1..]);
    assert ([table[i]] + table[i + 1..])[1..] == table[i + 1..];
    TableBytesConcat(table[..i], table[i + 1..]);
  }

  lemma TableBytesAppend(table: seq<Reassembly>, r: Reassembly)
    ensures TableBytes(table + [r]) == TableBytes(table) + |r.data|
  {
    TableBytesConcat(table, [r]);
    assert TableBytes([r]) == |r.data|;
  }

  lemma TableBytesUpdate(table: seq<Reassembly>, i: nat, r: Reassembly)
    requires i < |table| && |r.data| == |table[i].data|
    ensures TableBytes(table[i := r]) == TableBytes(table)
  {
    TableBytesRemoveAt(table, i);
    TableBytesRemoveAt(table[i := r], i);
    assert RemoveAt(table[i := r], i) == RemoveAt(table, i);
  }

  // EOS_CleanupReassembliesLocked

  predicate Expired(r: Reassembly, now: real) {
    now - r.lastUpdate > REASSEMBLY_LIFETIME
  }

  function Cleanup(table: seq<Reassembly>, now: real): seq<Reassembly> {
    if table == [] then []
    else (if Expired(table[0], now) then [] else [table[0]]) + Cleanup(table[1..], now)
  }

  // EOS_MakeReassemblyRoomLocked

  predicate HasRoom(table: seq<Reassembly>, size: nat) {
    |table| < MAX_REASSEMBLIES && TableBytes(table) + size <= MAX_REASSEMBLY_BYTES
  }

  // The first of the least recently updated entries, as std::min_element picks it.
  function Oldest(table: seq<Reassembly>): (i: nat)
    requires table != []
    ensures i < |table|
    ensures forall j | 0 <= j < |table| :: table[i].lastUpdate <= table[j].lastUpdate
    ensures forall j | 0 <= j < i :: table[i].lastUpdate < table[j].lastUpdate
  {
    if |table| == 1 then 0
    else
      var last := |table| - 1;
      var i := Oldest(table[..last]);
      if table[last].lastUpdate < table[i].lastUpdate then last else i
  }

  function MakeRoom(table: seq<Reassembly>, size: nat): seq<Reassembly> {
    if table == [] || HasRoom(table, size) then table else MakeRoom(RemoveAt(table, Oldest(table)), size)
  }

  // EOS_EnqueuePacketLocked

  predicate Fits(queue: seq<PendingPacket>, packet: PendingPacket) {
    |queue| < MAX_QUEUED_PACKETS && QueueBytes(queue) + |packet.payload| <= MAX_QUEUED_BYTES
  }

  function DropOldest(queue: seq<PendingPacket>, packet: PendingPacket): seq<PendingPacket> {
    if queue == [] || Fits(queue, packet) then queue else DropOldest(queue[1..], packet)
  }

  function Enqueue(queue: seq<PendingPacket>, packet: PendingPacket): seq<PendingPacket> {
    DropOldest(queue, packet) + if |packet.payload| <= MAX_QUEUED_BYTES then [packet] else []
  }

  function Emit(s: State, e: Emission): (o: Outcome)
    requires |s.queues| == 2
    ensures |o.state.queues| == 2
  {
    var i := e.key.destinationSocket;
    Outcome(s.(queues := s.queues[i := Enqueue(s.queues[i], PendingPacket(e.key.sender, e.payload))]), [e])
  }

  // std::find_if over the table: the index of the first match, or the length.
  function Find(table: seq<Reassembly>, key: Key): (i: nat)
    ensures i <= |table|
    ensures i < |table| ==> table[i].key == key
    ensures forall j | 0 <= j < i :: table[j].key != key
  {
    if table == [] then 0
    else if table[0].key == key then 0
    else 1 + Find(table[1..], key)
  }

  function Lookup(table: seq<Reassembly>, key: Key): Option<Reassembly> {
    var i := Find(table, key);
    if i < |table| then Some(table[i]) else None
  }

  function NewEntry(key: Key, f: Fragment, now: real): Reassembly {
    Reassembly(key, Zeros(f.totalSize), seq(f.count, _ => false), 0, now)
  }

  // The memcpy of a fragment into the entry, once.
  function Store(r: Reassembly, f: Fragment, now: real): Reassembly
    requires f.index < |r.receivedFragments|
    requires Offset(f.index) + |f.payload| <= |r.data|
  {
    if r.receivedFragments[f.index] then r.(lastUpdate := now)
    else
      var offset := Offset(f.index);
      Reassembly(r.key, r.data[..offset] + f.payload + r.data[offset + |f.payload|..],
                 r.receivedFragments[f.index := true], r.receivedCount + 1, now)
  }

  predicate WellFormed(f: Fragment) {
    && f.totalSize <= MAX_ENGINE_PACKET_SIZE
    && f.count == FragmentCount(f.totalSize)
    && f.index < f.count
    && |f.payload| == ChunkSize(f.totalSize, f.index)
  }

  function KeyOf(sender: Address, f: Fragment): Key {
    Key(sender, f.packetId, f.destinationSocket)
  }

  // EOS_ProcessFrame from its lock on, for a fragment that passed the header checks.
  function Accept(s: State, sender: Address, f: Fragment, now: real): (o: Outcome)
    requires |s.queues| == 2 && WellFormed(f)
    ensures |o.state.queues| == 2
  {
    FragmentBounds(f.totalSize, f.index);
    var key := KeyOf(sender, f);
    if f.count == 1 then Emit(s, Emission(key, f.payload))
    else
      var live := Cleanup(s.reassemblies, now);
      var found := Find(live, key);
      if found == |live| then
        var room := MakeRoom(live, f.totalSize);
        CollectAt(s, room + [NewEntry(key, f, now)], |room|, f, now)
      else if |live[found].data| != f.totalSize || |live[found].receivedFragments| != f.count then
        Outcome(s.(reassemblies := RemoveAt(live, found)), [])
      else
        CollectAt(s, live, found, f, now)
  }

  // Stores the fragment in entry i and hands the packet on when it was the last one missing.
  function CollectAt(s: State, table: seq<Reassembly>, i: nat, f: Fragment, now: real): (o: Outcome)
    requires |s.queues| == 2 && i < |table|
    requires f.index < |table[i].receivedFragments| && Offset(f.index) + |f.payload| <= |table[i].data|
    ensures |o.state.queues| == 2
  {
    var entry := Store(table[i], f, now);
    if entry.receivedCount != |entry.receivedFragments| then
      Outcome(s.(reassemblies := table[i := entry]), [])
    else
      Emit(s.(reassemblies := RemoveAt(table, i)), Emission(entry.key, entry.data))
  }

  lemma ParsedIsWellFormed(data: bytes)
    requires ParseFrame(data).Some?
    ensures WellFormed(ParseFrame(data).value)
  {
    hide DecodeHeader;
  }

  // EOS_ProcessFrame
  function ProcessFrame(s: State, sender: Address, data: bytes, now: real): (o: Outcome)
    requires |s.queues| == 2
    ensures |o.state.queues| == 2
  {
    match ParseFrame(data)
    case None => Outcome(s, [])
    case Some(f) => ParsedIsWellFormed(data); Accept(s, sender, f, now)
  }

  // EOS_ReceivePacket takes the front of a queue; EOS_ResetPacketQueue empties everything.

  function Receive(s: State, socket: Socket): State
    requires |s.queues| == 2
  {
    if s.queues[socket] == [] then s else s.(queues := s.queues[socket := s.queues[socket][1..]])
  }

  const INITIAL := State([[], []], [])

  // The invariant of every reachable state.

  ghost predicate EntryOk(r: Reassembly) {
    && |r.data| <= 256 * 1024
    && |r.receivedFragments| == FragmentCount(|r.data|) > 1
    && r.receivedCount == CountTrue(r.receivedFragments) < |r.receivedFragments|
  }

  ghost predicate DistinctKeys(table: seq<Reassembly>) {
    forall i, j | 0 <= i < j < |table| :: table[i].key != table[j].key
  }

  ghost predicate TableOk(table: seq<Reassembly>) {
    && DistinctKeys(table)
    && (forall i | 0 <= i < |table| :: EntryOk(table[i]))
  }

  ghost predicate QueueOk(queue: seq<PendingPacket>) {
    |queue| <= 512 && QueueBytes(queue) <= 8 * 1024 * 1024
  }

  ghost predicate Inv(s: State) {
    && |s.queues| == 2 && QueueOk(s.queues[0]) && QueueOk(s.queues[1])
    && TableOk(s.reassemblies)
    && |s.reassemblies| <= 64
    && TableBytes(s.reassemblies) <= 8 * 1024 * 1024
  }
}
