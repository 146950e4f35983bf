/** What expiry, eviction, queue overflow and fragment collection keep. */
module EosInvariants {
  import opened Bytes
  import opened EosFraming
  import opened EosReassembly

  // Queues

  lemma FitsIffQueueOk(queue: seq<PendingPacket>, packet: PendingPacket)
    ensures Fits(queue, packet) <==> QueueOk(queue + [packet])
  {
    QueueBytesConcat(queue, [packet]);
    assert QueueBytes([packet]) == |packet.payload|;
  }

  lemma {:induction false} DropOldestIsSuffix(queue: seq<PendingPacket>, packet: PendingPacket)
    ensures var r := DropOldest(queue, packet);
            && |r| <= |queue|
            && r == queue[|queue| - |r|..]
            && (r == [] || Fits(r, packet))
            && forall j | 0 <= j < |queue| - |r| :: !Fits(queue[j..], packet)
  {
    var r := DropOldest(queue, packet);
    if queue != [] && !Fits(queue, packet) {
      DropOldestIsSuffix(queue[1..], packet);
      assert r == queue[1..][|queue| - 1 - |r|..] == queue[|queue| - |r|..];
      forall j | 0 <= j < |queue| - |r| ensures !Fits(queue[j..], packet) {
        if j == 0 {
          assert queue[0..] == queue;
        } else {
          assert queue[j..] == queue[1..][j - 1..];
        }
      }
    } else {
      assert queue[0..] == queue;
    }
  }

  // A packet of legal size is queued behind the longest suffix of the queue that leaves room for it.
  lemma EnqueueKeepsLongestSuffix(queue: seq<PendingPacket>, packet: PendingPacket)
    requires |packet.payload| <= MAX_ENGINE_PACKET_SIZE
    ensures var r := Enqueue(queue, packet);
            var dropped := |queue| + 1 - |r|;
            && 0 <= dropped <= |queue|
            && r == queue[dropped..] + [packet]
            && QueueOk(r)
            && forall j | 0 <= j < dropped :: !QueueOk(queue[j..] + [packet])
  {
    DropOldestIsSuffix(queue, packet);
    var kept := DropOldest(queue, packet);
    FitsIffQueueOk(kept, packet);
    forall j | 0 <= j < |queue| - |kept| ensures !QueueOk(queue[j..] + [packet]) {
      FitsIffQueueOk(queue[j..], packet);
    }
  }

  // Tables

  // r is t with some entries left out.
  ghost predicate Subtable(r: seq<Reassembly>, t: seq<Reassembly>) {
    && |r| <= |t| && TableBytes(r) <= TableBytes(t)
    && (forall x | x in r :: x in t)
    && (DistinctKeys(t) ==> DistinctKeys(r))
  }

  lemma SubtableOk(r: seq<Reassembly>, t: seq<Reassembly>)
    requires Subtable(r, t) && TableOk(t)
    ensures TableOk(r)
  {
    forall i | 0 <= i < |r| ensures EntryOk(r[i]) {
      assert r[i] in t;
    }
  }

  lemma {:induction false} CleanupEffect(table: seq<Reassembly>, now: real)
    ensures Subtable(Cleanup(table, now), table)
    ensures forall x :: x in Cleanup(table, now) <==> x in table && !Expired(x, now)
  {
    if table != [] {
      CleanupEffect(table[1..], now);
      assert table == [table[0]] + table[1..];
      var rest := Cleanup(table[1..], now);
      TableBytesConcat([table[0]], rest);
      assert Cleanup(table, now) == if Expired(table[0], now) then rest else [table[0]] + rest;
      assert TableBytes([table[0]]) == |table[0].data|;
      if DistinctKeys(table) {
        assert DistinctKeys(table[1..]);
        forall x | x in rest ensures x.key != table[0].key {
          var j :| 0 <= j < |table[1..]| && table[1..][j] == x;
          assert table[j + 1] == x;
        }
      }
    }
  }

  lemma {:induction false} CleanupKeepsOrder(table: seq<Reassembly>, now: real)
    ensures Subsequence(Cleanup(table, now), table)
  {
    if table == [] {
      SubsequenceNone(table);
    } else {
      CleanupKeepsOrder(table[1..], now);
      SubsequenceBehind(Cleanup(table[1..], now), table[1..], table[0]);
      SubsequenceFirst(Cleanup(table[1..], now), table[1..], table[0]);
      hide Subsequence, Expired;
      assert [table[0]] + table[1..] == table;
      assert [] + Cleanup(table[1..], now) == Cleanup(table[1..], now);
    }
  }

  // In the source's own terms: what was updated in the last five seconds stays, in its order, and nothing else.
  lemma StaysFiveSeconds(table: seq<Reassembly>, now: real)
    ensures var r := Cleanup(table, now);
            Subsequence(r, table) && forall x :: x in r <==> x in table && now - x.lastUpdate <= 5.0
  {
    hide Subsequence, Cleanup, Subtable;
    CleanupEffect(table, now);
    CleanupKeepsOrder(table, now);
  }

  lemma RemoveAtEffect(table: seq<Reassembly>, i: nat)
    requires i < |table|
    ensures Subtable(RemoveAt(table, i), table)
    ensures forall x | x in table :: x in RemoveAt(table, i) || x == table[i]
    ensures DistinctKeys(table) ==> table[i] !in RemoveAt(table, i)
  {
    TableBytesRemoveAt(table, i);
    var r := RemoveAt(table, i);
    forall x | x in table && x != table[i] ensures x in r {
      var j :| 0 <= j < |table| && table[j] == x;
      assert r[if j < i then j else j - 1] == x;
    }
  }

  lemma {:induction false} MakeRoomEffect(table: seq<Reassembly>, size: nat)
    requires size <= MAX_ENGINE_PACKET_SIZE
    ensures Subtable(MakeRoom(table, size), table)
    ensures HasRoom(MakeRoom(table, size), size)
    decreases |table|
  {
    if table != [] && !HasRoom(table, size) {
      RemoveAtEffect(table, Oldest(table));
      MakeRoomEffect(RemoveAt(table, Oldest(table)), size);
    }
  }

  // Eviction takes the stalest entries, and no more of them than it must: putting the last one
  // evicted back would leave no room.
  lemma {:induction false} MakeRoomEvictsOldest(table: seq<Reassembly>, size: nat)
    requires size <= MAX_ENGINE_PACKET_SIZE && DistinctKeys(table)
    ensures var r := MakeRoom(table, size);
            && (forall x, y | x in table && x !in r && y in r :: x.lastUpdate <= y.lastUpdate)
            && (r == table || exists x :: x in table && x !in r && !HasRoom(r + [x], size))
    decreases |table|
  {
    var r := MakeRoom(table, size);
    if table != [] && !HasRoom(table, size) {
      var i := Oldest(table);
      var rest := RemoveAt(table, i);
      RemoveAtEffect(table, i);
      MakeRoomEvictsOldest(rest, size);
      MakeRoomEffect(rest, size);
      forall x, y | x in table && x !in r && y in r ensures x.lastUpdate <= y.lastUpdate {
        if x == table[i] {
          assert y in table;
        }
      }
      if r == rest {
        TableBytesRemoveAt(table, i);
        TableBytesAppend(rest, table[i]);
        assert table[i] in table && table[i] !in r && !HasRoom(r + [table[i]], size);
      }
    }
  }

  // Flags

  lemma {:induction false} CountTrueUpdate(flags: seq<bool>, i: nat)
    requires i < |flags| && !flags[i]
    ensures CountTrue(flags[i := true]) == CountTrue(flags) + 1
  {
    var last := |flags| - 1;
    if i == last {
      assert flags[i := true][..last] == flags[..last];
    } else {
      assert flags[i := true][..last] == flags[..last][i := true];
      CountTrueUpdate(flags[..last], i);
    }
  }

  lemma {:induction false} CountTrueFull(flags: seq<bool>)
    ensures CountTrue(flags) == |flags| <==> forall i | 0 <= i < |flags| :: flags[i]
  {
    if flags != [] {
      var last := |flags| - 1;
      CountTrueFull(flags[..last]);
      assert forall i | 0 <= i < last :: flags[i] == flags[..last][i];
    }
  }

  lemma {:induction false} CountTrueNone(n: nat)
    ensures CountTrue(seq(n, _ => false)) == 0
  {
    if n > 0 {
      assert seq(n, _ => false)[..n - 1] == seq(n - 1, _ => false);
      CountTrueNone(n - 1);
    }
  }

  // One step

  ghost predicate Collectable(r: Reassembly, f: Fragment) {
    EntryOk(r) && |r.data| == f.totalSize && |r.receivedFragments| == f.count && WellFormed(f)
  }

  lemma StoreKeepsCount(r: Reassembly, f: Fragment, now: real)
    requires Collectable(r, f)
    ensures Offset(f.index) + |f.payload| <= |r.data|
    ensures var e := Store(r, f, now);
            && e.key == r.key && |e.data| == |r.data| && |e.receivedFragments| == |r.receivedFragments|
            && e.receivedCount == CountTrue(e.receivedFragments)
  {
    FragmentBounds(f.totalSize, f.index);
    if !r.receivedFragments[f.index] {
      CountTrueUpdate(r.receivedFragments, f.index);
    }
  }

  lemma NewEntryOk(key: Key, f: Fragment, now: real)
    requires WellFormed(f) && f.count > 1
    ensures Collectable(NewEntry(key, f, now), f)
  {
    CountTrueNone(f.count);
  }

  lemma EmitKeepsInv(s: State, e: Emission)
    requires Inv(s) && |e.payload| <= MAX_ENGINE_PACKET_SIZE
    ensures Inv(Emit(s, e).state)
  {
    hide Enqueue, QueueBytes, TableBytes, TableOk;
    EnqueueKeepsLongestSuffix(s.queues[e.key.destinationSocket], PendingPacket(e.key.sender, e.payload));
  }

  lemma CollectAtKeepsInv(s: State, table: seq<Reassembly>, i: nat, f: Fragment, now: real)
    requires Inv(s.(reassemblies := table))
    requires i < |table| && Collectable(table[i], f)
    ensures Offset(f.index) + |f.payload| <= |table[i].data|
    ensures Inv(CollectAt(s, table, i, f, now).state)
  {
    hide FragmentCount, ChunkSize, CountTrue, Emit, QueueOk;
    StoreKeepsCount(table[i], f, now);
    var entry := Store(table[i], f, now);
    if entry.receivedCount != |entry.receivedFragments| {
      TableBytesUpdate(table, i, entry);
    } else {
      RemoveAtEffect(table, i);
      SubtableOk(RemoveAt(table, i), table);
      EmitKeepsInv(s.(reassemblies := RemoveAt(table, i)), Emission(entry.key, entry.data));
    }
  }

  lemma AcceptKeepsInv(s: State, sender: Address, f: Fragment, now: real)
    requires Inv(s) && WellFormed(f)
    ensures Inv(Accept(s, sender, f, now).state)
  {
    hide CollectAt, Emit, MakeRoom, Cleanup, TableBytes, QueueBytes, FragmentCount, ChunkSize, CountTrue;
    var key := KeyOf(sender, f);
    if f.count == 1 {
      EmitKeepsInv(s, Emission(key, f.payload));
    } else {
      var live := Cleanup(s.reassemblies, now);
      CleanupEffect(s.reassemblies, now);
      SubtableOk(live, s.reassemblies);
      var found := Find(live, key);
      if found == |live| {
        var room := MakeRoom(live, f.totalSize);
        MakeRoomEffect(live, f.totalSize);
        SubtableOk(room, live);
        NewEntryOk(key, f, now);
        TableBytesAppend(room, NewEntry(key, f, now));
        assert forall x | x in room :: x in live && x.key != key;
        CollectAtKeepsInv(s, room + [NewEntry(key, f, now)], |room|, f, now);
      } else if |live[found].data| != f.totalSize || |live[found].receivedFragments| != f.count {
        RemoveAtEffect(live, found);
        SubtableOk(RemoveAt(live, found), live);
      } else {
        CollectAtKeepsInv(s, live, found, f, now);
      }
    }
  }

  lemma ProcessFrameKeepsInv(s: State, sender: Address, data: bytes, now: real)
    requires Inv(s)
    ensures Inv(ProcessFrame(s, sender, data, now).state)
  {
    hide ParseFrame, Accept;
    if ParseFrame(data).Some? {
      ParsedIsWellFormed(data);
      AcceptKeepsInv(s, sender, ParseFrame(data).value, now);
    }
  }
}
