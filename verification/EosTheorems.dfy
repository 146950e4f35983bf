/** The first promise of the packet transport, over whole runs: packets are never mixed. */
module EosTheorems {
  import opened Bytes
  import opened EosFraming
  import opened EosReassembly
  import opened EosInvariants
  import opened EosDelivery

  // The peers: under each key at most one packet was ever sent.
  type Sent = map<Key, bytes>

  // A frame is honest if the checks throw it out, or it is a frame of what its sender sent.
  ghost predicate HonestFrame(sent: Sent, sender: Address, data: bytes) {
    match ParseFrame(data)
    case None => true
    case Some(f) =>
      var key := KeyOf(sender, f);
      && key in sent && Sendable(sent[key])
      && f.index < FragmentCount(|sent[key]|)
      && data == Frame(sent[key], f.packetId, f.destinationSocket, f.index)
  }

  ghost predicate Honest(sent: Sent, e: Event) {
    e.Arrive? ==> HonestFrame(sent, e.sender, e.data)
  }

  ghost predicate SafeEntry(sent: Sent, r: Reassembly) {
    r.key in sent && Coherent(r, sent[r.key])
  }

  ghost predicate SafeEmission(sent: Sent, e: Emission) {
    e.key in sent && e.payload == sent[e.key]
  }

  // A queued packet is one its sender sent to this socket.
  ghost predicate SafePacket(sent: Sent, p: PendingPacket, socket: Socket) {
    exists id: uint32 :: Key(p.sender, id, socket) in sent && p.payload == sent[Key(p.sender, id, socket)]
  }

  ghost predicate SafeState(sent: Sent, s: State) {
    && Inv(s)
    && (forall r | r in s.reassemblies :: SafeEntry(sent, r))
    && (forall p | p in s.queues[0] :: SafePacket(sent, p, 0))
    && (forall p | p in s.queues[1] :: SafePacket(sent, p, 1))
  }

  lemma HonestIsGenuine(sent: Sent, sender: Address, data: bytes)
    requires HonestFrame(sent, sender, data) && ParseFrame(data).Some?
    ensures var f := ParseFrame(data).value; Genuine(f, sent[KeyOf(sender, f)])
  {
    var f := ParseFrame(data).value;
    hide ParseFrame, EncodeHeader;
    ParseOfFrame(sent[KeyOf(sender, f)], f.packetId, f.destinationSocket, f.index);
  }

  lemma EnqueueMembers(queue: seq<PendingPacket>, packet: PendingPacket)
    ensures forall p | p in Enqueue(queue, packet) :: p in queue || p == packet
  {
    DropOldestIsSuffix(queue, packet);
  }

  lemma EmitIsSafe(sent: Sent, s: State, e: Emission)
    requires SafeState(sent, s) && SafeEmission(sent, e) && |e.payload| <= MAX_ENGINE_PACKET_SIZE
    ensures SafeState(sent, Emit(s, e).state)
  {
    EmitKeepsInv(s, e);
    EnqueueMembers(s.queues[e.key.destinationSocket], PendingPacket(e.key.sender, e.payload));
    hide Enqueue;
    assert SafePacket(sent, PendingPacket(e.key.sender, e.payload), e.key.destinationSocket) by {
      assert Key(e.key.sender, e.key.packetId, e.key.destinationSocket) == e.key;
    }
  }

  // An emission changes the queues only as Emit does; without one they stay.
  lemma AcceptQueues(s: State, sender: Address, f: Fragment, now: real)
    requires |s.queues| == 2 && WellFormed(f)
    ensures var o := Accept(s, sender, f, now);
            if o.emitted == [] then o.state.queues == s.queues
            else |o.emitted| == 1 && o.state.queues == Emit(s, o.emitted[0]).state.queues
  {
    hide Enqueue, Cleanup, MakeRoom, Store, ChunkSize;
  }

  lemma AcceptIsSafe(sent: Sent, s: State, sender: Address, f: Fragment, now: real)
    requires SafeState(sent, s) && WellFormed(f)
    requires KeyOf(sender, f) in sent && Genuine(f, sent[KeyOf(sender, f)])
    ensures var o := Accept(s, sender, f, now);
            SafeState(sent, o.state) && forall e | e in o.emitted :: SafeEmission(sent, e)
  {
    var key := KeyOf(sender, f);
    var payload := sent[key];
    if f.count == 1 {
      WholeChunk(payload);
      EmitIsSafe(sent, s, Emission(key, f.payload));
    } else {
      hide Accept;
      AcceptKeepsInv(s, sender, f, now);
      AcceptEffect(s, sender, f, now);
      AcceptQueues(s, sender, f, now);
      var o := Accept(s, sender, f, now);
      CollectGenuine(s, key, f, now, payload);
      var entry := Store(Target(s, key, f, now), f, now);
      forall r | r in o.state.reassemblies ensures SafeEntry(sent, r) {
        if r.key == key {
          LookupNone(o.state.reassemblies, key);
          LookupIffIn(o.state.reassemblies, key, r);
        }
      }
      if o.emitted != [] {
        EmitIsSafe(sent, s, o.emitted[0]);
      }
    }
  }

  lemma TargetGenuine(s: State, key: Key, f: Fragment, now: real, payload: bytes)
    requires Inv(s) && Genuine(f, payload) && f.count > 1
    requires forall r | r in s.reassemblies && r.key == key :: Coherent(r, payload)
    ensures var target := Target(s, key, f, now); Collectable(target, f) && Coherent(target, payload)
  {
    var live := Cleanup(s.reassemblies, now);
    var target := Target(s, key, f, now);
    CleanupEffect(s.reassemblies, now);
    SubtableOk(live, s.reassemblies);
    if Lookup(live, key).Some? {
      LookupIffIn(live, key, target);
      assert target in s.reassemblies;
      var j :| 0 <= j < |s.reassemblies| && s.reassemblies[j] == target;
      assert EntryOk(target);
    } else {
      NewEntryOk(key, f, now);
      hide CountTrue, ChunkSize, Chunk, Cleanup;
      assert forall x: nat | x < |payload| :: !Received(target, x);
    }
  }

  // Storing a genuine fragment in its target: the target is coherent before and after, and a full
  // target is the packet.
  lemma CollectGenuine(s: State, key: Key, f: Fragment, now: real, payload: bytes)
    requires Inv(s) && Genuine(f, payload) && f.count > 1
    requires forall r | r in s.reassemblies && r.key == key :: Coherent(r, payload)
    ensures var target := Target(s, key, f, now);
            && Collectable(target, f) && Coherent(target, payload)
            && Offset(f.index) + |f.payload| <= |target.data|
            && var entry := Store(target, f, now);
               Coherent(entry, payload) && entry.receivedCount == CountTrue(entry.receivedFragments)
               && (entry.receivedCount == |entry.receivedFragments| ==> entry.data == payload)
  {
    TargetGenuine(s, key, f, now, payload);
    var target := Target(s, key, f, now);
    StoreCoherent(target, f, now, payload);
    StoreKeepsCount(target, f, now);
    hide Target, Coherent, Collectable, Genuine, Store, CountTrue;
    var entry := Store(target, f, now);
    if entry.receivedCount == |entry.receivedFragments| {
      FullIsPayload(entry, payload);
    }
  }

  lemma StepIsSafe(sent: Sent, s: State, e: Event)
    requires SafeState(sent, s) && Honest(sent, e)
    ensures SafeState(sent, Step(s, e).state)
    ensures forall x | x in Step(s, e).emitted :: SafeEmission(sent, x)
  {
    hide ParseFrame, Accept, Cleanup;
    StepKeepsInv(s, e);
    match e {
      case Arrive(sender, data, now) =>
        if ParseFrame(data).Some? {
          ParsedIsWellFormed(data);
          HonestIsGenuine(sent, sender, data);
          AcceptIsSafe(sent, s, sender, ParseFrame(data).value, now);
        }
      case Tick(now) => CleanupEffect(s.reassemblies, now);
      case Take(socket) =>
      case Reset =>
    }
  }

  // Whatever is lost, repeated, reordered, expired, evicted or reset: every packet handed on, and
  // every packet waiting in a queue, is one its sender sent to that socket, byte for byte.
  lemma {:induction false} NoMixing(sent: Sent, events: seq<Event>)
    requires forall e | e in events :: Honest(sent, e)
    ensures var o := Run(INITIAL, events);
            && SafeState(sent, o.state)
            && forall x | x in o.emitted :: SafeEmission(sent, x)
  {
    if events != [] {
      var before := events[..|events| - 1];
      var e := events[|events| - 1];
      assert forall x | x in before :: x in events;
      NoMixing(sent, before);
      StepIsSafe(sent, Run(INITIAL, before).state, e);
    }
  }
}
