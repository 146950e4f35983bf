/**
  Runs of the receiver: any interleaving of arriving frames (of any sender, in any order, lost,
  repeated), timer ticks, reads by the engine and resets.
 */
module EosDelivery {
  import opened Bytes
  import opened EosFraming
  import opened EosReassembly
  import opened EosInvariants

  datatype Event =
    | Arrive(sender: Address, data: bytes, now: real)
    | Tick(now: real)
    | Take(socket: Socket)
    | Reset

  function Step(s: State, e: Event): (o: Outcome)
    requires |s.queues| == 2
    ensures |o.state.queues| == 2
  {
    match e
    case Arrive(sender, data, now) => ProcessFrame(s, sender, data, now)
    case Tick(now) => Outcome(s.(reassemblies := Cleanup(s.reassemblies, now)), [])
    case Take(socket) => Outcome(Receive(s, socket), [])
    case Reset => Outcome(INITIAL, [])
  }

  function Run(s: State, events: seq<Event>): (o: Outcome)
    requires |s.queues| == 2
    ensures |o.state.queues| == 2
  {
    if events == [] then Outcome(s, [])
    else
      var before := Run(s, events[..|events| - 1]);
      var last := Step(before.state, events[|events| - 1]);
      Outcome(last.state, before.emitted + last.emitted)
  }

  lemma StepKeepsInv(s: State, e: Event)
    requires Inv(s)
    ensures Inv(Step(s, e).state)
  {
    match e {
      case Arrive(sender, data, now) => ProcessFrameKeepsInv(s, sender, data, now);
      case Tick(now) =>
        CleanupEffect(s.reassemblies, now);
        SubtableOk(Cleanup(s.reassemblies, now), s.reassemblies);
      case Take(socket) =>
      case Reset =>
    }
  }

  // In every reachable state the table and the queues are within their bounds, keys are distinct,
  // and every entry is partial and counts its flags.
  lemma {:induction false} ReachableInv(s: State, events: seq<Event>)
    requires Inv(s)
    ensures Inv(Run(s, events).state)
  {
    if events != [] {
      ReachableInv(s, events[..|events| - 1]);
      StepKeepsInv(Run(s, events[..|events| - 1]).state, events[|events| - 1]);
    }
  }

  // Tables by key

  lemma {:induction false} LookupIffIn(table: seq<Reassembly>, key: Key, r: Reassembly)
    requires DistinctKeys(table)
    ensures Lookup(table, key) == Some(r) <==> r in table && r.key == key
  {
    if r in table && r.key == key {
      var j :| 0 <= j < |table| && table[j] == r;
      var i := Find(table, key);
      assert i <= j;
    }
  }

  lemma LookupNone(table: seq<Reassembly>, key: Key)
    ensures Lookup(table, key) == None <==> forall r | r in table :: r.key != key
  {
    var i := Find(table, key);
    if i < |table| {
      assert table[i] in table;
    }
  }

  lemma SubtableLookup(r: seq<Reassembly>, t: seq<Reassembly>, key: Key)
    requires Subtable(r, t) && DistinctKeys(t)
    ensures Lookup(r, key) == None || Lookup(r, key) == Lookup(t, key)
  {
    if Lookup(r, key).Some? {
      var x := Lookup(r, key).value;
      LookupIffIn(r, key, x);
      LookupIffIn(t, key, x);
    }
  }

  // What one accepted fragment does to the table

  // The entry a multi-fragment packet is collected in, once expiry and eviction are done.
  function Target(s: State, key: Key, f: Fragment, now: real): Reassembly {
    var live := Cleanup(s.reassemblies, now);
    if Lookup(live, key).Some? then Lookup(live, key).value else NewEntry(key, f, now)
  }

  lemma CollectAtEffect(s: State, table: seq<Reassembly>, i: nat, f: Fragment, now: real)
    requires |s.queues| == 2 && i < |table| && DistinctKeys(table) && Collectable(table[i], f)
    ensures Offset(f.index) + |f.payload| <= |table[i].data|
    ensures var entry := Store(table[i], f, now);
            var o := CollectAt(s, table, i, f, now);
            if entry.receivedCount == |entry.receivedFragments| then
              && o.emitted == [Emission(entry.key, entry.data)]
              && (forall x | x in o.state.reassemblies :: x in table && x.key != entry.key)
              && (forall x | x in table && x.key != entry.key :: x in o.state.reassemblies)
            else
              && o.emitted == []
              && entry in o.state.reassemblies
              && (forall x | x in o.state.reassemblies :: x == entry || (x in table && x.key != entry.key))
              && (forall x | x in table && x.key != entry.key :: x in o.state.reassemblies)
  {
    StoreKeepsCount(table[i], f, now);
    hide ChunkSize, FragmentCount, CountTrue, Store, DropOldest, Enqueue;
    var entry := Store(table[i], f, now);
    RemoveAtEffect(table, i);
    if entry.receivedCount != |entry.receivedFragments| {
      var t := table[i := entry];
      assert t[i] == entry;
      forall x | x in table && x.key != entry.key ensures x in t {
        var j :| 0 <= j < |table| && table[j] == x;
        assert t[j] == x;
      }
    }
  }

  // The table after an accepted multi-fragment frame: nothing under other keys is new, and the
  // frame's own key holds the updated target, or nothing once the packet has been handed on.
  lemma AcceptEffect(s: State, sender: Address, f: Fragment, now: real)
    requires Inv(s) && WellFormed(f) && f.count > 1
    ensures var o := Accept(s, sender, f, now);
            && (forall x | x in o.state.reassemblies :: x.key == KeyOf(sender, f) || x in s.reassemblies)
            && forall e | e in o.emitted :: e.key == KeyOf(sender, f)
    ensures var key := KeyOf(sender, f);
            var o := Accept(s, sender, f, now);
            var target := Target(s, key, f, now);
            Collectable(target, f) ==>
              && Offset(f.index) + |f.payload| <= |target.data|
              && var entry := Store(target, f, now);
                 if entry.receivedCount == |entry.receivedFragments| then
                   o.emitted == [Emission(key, entry.data)] && Lookup(o.state.reassemblies, key) == None
                 else
                   o.emitted == [] && Lookup(o.state.reassemblies, key) == Some(entry)
  {
    hide CollectAt, Emit, MakeRoom, Cleanup, TableBytes, QueueBytes, FragmentCount, ChunkSize, CountTrue;
    var key := KeyOf(sender, f);
    var live := Cleanup(s.reassemblies, now);
    CleanupEffect(s.reassemblies, now);
    SubtableOk(live, s.reassemblies);
    var found := Find(live, key);
    if found == |live| {
      var room := MakeRoom(live, f.totalSize);
      MakeRoomEffect(live, f.totalSize);
      NewEntryOk(key, f, now);
      assert forall x | x in room :: x in live && x.key != key;
      AcceptInto(s, room + [NewEntry(key, f, now)], |room|, f, now);
    } else if |live[found].data| == f.totalSize && |live[found].receivedFragments| == f.count {
      AcceptInto(s, live, found, f, now);
    } else {
      RemoveAtEffect(live, found);
    }
  }

  lemma AcceptInto(s: State, table: seq<Reassembly>, i: nat, f: Fragment, now: real)
    requires Inv(s) && i < |table| && DistinctKeys(table) && Collectable(table[i], f)
    ensures Offset(f.index) + |f.payload| <= |table[i].data|
    ensures var entry := Store(table[i], f, now);
            var key := table[i].key;
            var o := CollectAt(s, table, i, f, now);
            && (forall x | x in o.state.reassemblies :: x.key == key || x in table)
            && (forall e | e in o.emitted :: e.key == key)
            && if entry.receivedCount == |entry.receivedFragments| then
                 o.emitted == [Emission(key, entry.data)] && Lookup(o.state.reassemblies, key) == None
               else
                 o.emitted == [] && Lookup(o.state.reassemblies, key) == Some(entry)
  {
    CollectAtEffect(s, table, i, f, now);
    StoreKeepsCount(table[i], f, now);
    hide CollectAt, Emit, FragmentCount, ChunkSize, CountTrue;
    var entry := Store(table[i], f, now);
    var after := CollectAt(s, table, i, f, now).state.reassemblies;
    if entry.receivedCount == |entry.receivedFragments| {
      LookupNone(after, entry.key);
    } else {
      var j := Find(after, entry.key);
      LookupNone(after, entry.key);
      assert after[j] in after;
    }
  }

  // Coherence of an entry with the packet its fragments come from

  ghost predicate Genuine(f: Fragment, payload: bytes) {
    && Sendable(payload) && f.totalSize == |payload| && f.count == FragmentCount(|payload|)
    && f.index < f.count && f.payload == Chunk(payload, f.index)
  }

  lemma IndexOfByte(size: nat, x: nat)
    requires x < size
    ensures IndexAt(x) < FragmentCount(size)
    ensures forall i: nat :: i == IndexAt(x) <==> Offset(i) <= x < Offset(i) + FRAGMENT_PAYLOAD_SIZE
  {
    var q := IndexAt(x);
    assert Offset(q) <= x < Offset(q) + FRAGMENT_PAYLOAD_SIZE;
    forall i: nat | Offset(i) <= x < Offset(i) + FRAGMENT_PAYLOAD_SIZE ensures i == q {
      if i < q {
        OffsetMonotone(i + 1, q);
        OffsetMonotone(i, i + 1);
      } else if q < i {
        OffsetMonotone(q + 1, i);
        OffsetMonotone(q, q + 1);
      }
    }
    if q >= FragmentCount(size) {
      CeilDiv(size);
      OffsetMonotone((size + FRAGMENT_PAYLOAD_SIZE - 1) / FRAGMENT_PAYLOAD_SIZE, q);
    }
  }

  // Every byte under a set flag is the packet's own.
  ghost predicate Coherent(r: Reassembly, payload: bytes) {
    && |r.data| == |payload| && |r.receivedFragments| == FragmentCount(|payload|)
    && forall x: nat | x < |payload| && Received(r, x) :: r.data[x] == payload[x]
  }

  ghost predicate Received(r: Reassembly, x: nat) {
    var i := IndexAt(x); i < |r.receivedFragments| && r.receivedFragments[i]
  }

  lemma StoreCoherent(r: Reassembly, f: Fragment, now: real, payload: bytes)
    requires Coherent(r, payload) && Genuine(f, payload)
    ensures Offset(f.index) + |f.payload| <= |r.data|
    ensures Coherent(Store(r, f, now), payload)
  {
    ChunkBytes(payload, f.index);
    hide FragmentCount, ChunkSize, Chunk, Offset, IndexAt;
    var e := Store(r, f, now);
    if !r.receivedFragments[f.index] {
      forall x: nat | x < |payload| && Received(e, x) ensures e.data[x] == payload[x] {
        IndexOfByte(|payload|, x);
        if IndexAt(x) != f.index {
          assert Received(r, x);
        }
      }
    }
  }

  lemma ChunkBytes(payload: bytes, i: nat)
    requires i < FragmentCount(|payload|)
    ensures Offset(i) + |Chunk(payload, i)| <= |payload| && |Chunk(payload, i)| <= FRAGMENT_PAYLOAD_SIZE
    ensures forall x: nat | Offset(i) <= x < Offset(i) + FRAGMENT_PAYLOAD_SIZE && x < |payload| ::
              x - Offset(i) < |Chunk(payload, i)| && Chunk(payload, i)[x - Offset(i)] == payload[x]
  {
    FragmentBounds(|payload|, i);
  }

  lemma FullIsPayload(r: Reassembly, payload: bytes)
    requires Coherent(r, payload) && CountTrue(r.receivedFragments) == |r.receivedFragments|
    ensures r.data == payload
  {
    CountTrueFull(r.receivedFragments);
    forall x: nat | x < |payload| ensures r.data[x] == payload[x] {
      IndexOfByte(|payload|, x);
      assert Received(r, x);
    }
  }
}
