/** When partial packets go: after five seconds without a frame, or to make room for a new one. */
module EosExpiry {
  import opened Bytes
  import opened EosFraming
  import opened EosReassembly
  import opened EosInvariants
  import opened EosDelivery

  // A tick leaves exactly what was updated in the last five seconds, in its order, and nothing else changes.
  lemma TickExpires(s: State, now: real)
    requires Inv(s)
    ensures var o := Step(s, Tick(now));
            && (forall x :: x in o.state.reassemblies <==> x in s.reassemblies && now - x.lastUpdate <= 5.0)
            && Subsequence(o.state.reassemblies, s.reassemblies)
            && o.emitted == [] && o.state.queues == s.queues
  {
    StaysFiveSeconds(s.reassemblies, now);
  }

  // Nothing in the table has been idle for more than five seconds.
  ghost predicate Fresh(s: State, now: real) {
    forall x | x in s.reassemblies :: now - x.lastUpdate <= 5.0
  }

  // An entry that had to make room: the packet of `key` has no fresh entry, it and the table exceed the bounds,
  // and what is left of the others was updated no earlier.
  ghost predicate Evicted(s: State, x: Reassembly, key: Key, size: nat, now: real, after: State) {
    && (forall y | y in s.reassemblies && y.key == key :: now - y.lastUpdate > 5.0)
    && (|s.reassemblies| >= 64 || TableBytes(s.reassemblies) + size > 8 * 1024 * 1024)
    && forall y | y in after.reassemblies && y.key != key :: x.lastUpdate <= y.lastUpdate
  }

  // What taking a fragment leaves: of the other packets what was there, and of its own an entry of this time.
  lemma CollectLeaves(s: State, table: seq<Reassembly>, i: nat, f: Fragment, now: real)
    requires |s.queues| == 2 && i < |table| && DistinctKeys(table) && Collectable(table[i], f)
    ensures Offset(f.index) + |f.payload| <= |table[i].data|
    ensures var t := CollectAt(s, table, i, f, now).state.reassemblies;
            && (forall x | x in t ::
                  (x.key == table[i].key && x.lastUpdate == now) || (x in table && x.key != table[i].key))
            && (forall x | x in table && x.key != table[i].key :: x in t)
  {
    StoreKeepsCount(table[i], f, now);
    CollectAtEffect(s, table, i, f, now);
    assert Store(table[i], f, now).lastUpdate == now;
    hide CollectAt, Store;
  }

  /**
    An accepted fragment leaves nothing idle for more than five seconds either.  Of the other packets, what goes
    was idle for longer, or was evicted.
   */
  lemma FragmentExpires(s: State, sender: Address, f: Fragment, now: real)
    requires Inv(s) && WellFormed(f) && f.count > 1
    ensures var o := Accept(s, sender, f, now);
            var key := KeyOf(sender, f);
            && Fresh(o.state, now)
            && (forall x | x in o.state.reassemblies && x.key != key :: x in s.reassemblies)
            && forall x | x in s.reassemblies && x.key != key && x !in o.state.reassemblies ::
                 now - x.lastUpdate > 5.0 || Evicted(s, x, key, f.totalSize, now, o.state)
  {
    hide CollectAt, Emit, MakeRoom, Cleanup, TableBytes, QueueBytes, FragmentCount, ChunkSize, CountTrue, Store,
         Subsequence;
    var key := KeyOf(sender, f);
    var live := Cleanup(s.reassemblies, now);
    CleanupEffect(s.reassemblies, now);
    StaysFiveSeconds(s.reassemblies, now);
    SubtableOk(live, s.reassemblies);
    var found := Find(live, key);
    if found == |live| {
      NewcomerEvicts(s, sender, f, now);
    } else if |live[found].data| != f.totalSize || |live[found].receivedFragments| != f.count {
      RemoveAtEffect(live, found);
    } else {
      CollectLeaves(s, live, found, f, now);
    }
  }

  // So does every frame that passes the checks and is one of several.
  lemma FrameExpires(s: State, sender: Address, data: bytes, now: real)
    requires Inv(s) && ParseFrame(data).Some? && ParseFrame(data).value.count > 1
    ensures var f := ParseFrame(data).value;
            var o := Step(s, Arrive(sender, data, now));
            && Fresh(o.state, now)
            && forall x | x in s.reassemblies && x.key != KeyOf(sender, f) && x !in o.state.reassemblies ::
                 now - x.lastUpdate > 5.0 || Evicted(s, x, KeyOf(sender, f), f.totalSize, now, o.state)
  {
    ParsedIsWellFormed(data);
    hide ParseFrame, Accept;
    FragmentExpires(s, sender, ParseFrame(data).value, now);
  }

  lemma NewcomerEvicts(s: State, sender: Address, f: Fragment, now: real)
    requires Inv(s) && WellFormed(f) && f.count > 1
    requires Find(Cleanup(s.reassemblies, now), KeyOf(sender, f)) == |Cleanup(s.reassemblies, now)|
    ensures var t := Accept(s, sender, f, now).state;
            var key := KeyOf(sender, f);
            && Fresh(t, now)
            && (forall x | x in t.reassemblies && x.key != key :: x in s.reassemblies)
            && forall x | x in s.reassemblies && x.key != key && x !in t.reassemblies ::
                 now - x.lastUpdate > 5.0 || Evicted(s, x, key, f.totalSize, now, t)
  {
    hide CollectAt, Emit, MakeRoom, Cleanup, TableBytes, QueueBytes, FragmentCount, ChunkSize, CountTrue, Store,
         Subsequence;
    var key := KeyOf(sender, f);
    var live := Cleanup(s.reassemblies, now);
    CleanupEffect(s.reassemblies, now);
    StaysFiveSeconds(s.reassemblies, now);
    SubtableOk(live, s.reassemblies);
    LookupNone(live, key);
    var room := MakeRoom(live, f.totalSize);
    MakeRoomEffect(live, f.totalSize);
    MakeRoomEvictsOldest(live, f.totalSize);
    RoomIsKept(live, f.totalSize);
    SubtableOk(room, live);
    NewEntryOk(key, f, now);
    var table := room + [NewEntry(key, f, now)];
    assert forall x | x in room :: x in live && x.key != key;
    CollectLeaves(s, table, |room|, f, now);
    var t := Accept(s, sender, f, now).state;
    assert forall y | y in t.reassemblies && y.key != key :: y in room;
    assert forall x | x in room :: x in table;
    hide Find;
  }

  lemma RoomIsKept(table: seq<Reassembly>, size: nat)
    ensures MakeRoom(table, size) != table ==> |table| >= 64 || TableBytes(table) + size > 8 * 1024 * 1024
  {
    hide TableBytes;
  }
}
