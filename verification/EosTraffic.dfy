/**
  Delivery among other traffic: what a caller can check of the packets and times of a run for none of
  its packets to be dropped, so that all of them are handed on.
 */
module EosTraffic {
  import opened Bytes
  import opened EosFraming
  import opened EosReassembly
  import opened EosInvariants
  import opened EosDelivery
  import opened EosTheorems
  import opened EosExactlyOnce

  ghost predicate KnownKeys(keys: seq<Key>, sent: Sent) {
    forall key | key in keys :: key in sent
  }

  function SizeOf(keys: seq<Key>, sent: Sent): nat {
    if keys == [] then 0
    else (if keys[0] in sent then |sent[keys[0]]| else 0) + SizeOf(keys[1..], sent)
  }

  // The packets fit into what the entries of the table leave free.
  ghost predicate RoomFor(table: seq<Reassembly>, keys: seq<Key>, sent: Sent) {
    && |table| + |keys| <= 64
    && TableBytes(table) + SizeOf(keys, sent) <= 8 * 1024 * 1024
  }

  // Of several fragments only frames of these packets arrive; frames under their keys are genuine; nothing
  // is reset.  What is no frame, packets of one fragment, ticks and reads are free.
  ghost predicate Traffic(e: Event, keys: seq<Key>, sent: Sent) {
    && !e.Reset?
    && (e.Arrive? && ParseFrame(e.data).Some? ==>
          var f := ParseFrame(e.data).value;
          var key := KeyOf(e.sender, f);
          && (f.count > 1 ==> key in keys)
          && (key in keys ==> key in sent && Genuine(f, sent[key])))
  }

  // When the last frame under this key came.
  ghost function LastFrame(events: seq<Event>, key: Key): real {
    if events == [] then 0.0
    else
      var e := events[|events| - 1];
      if Concerns(e, key) then e.now else LastFrame(events[..|events| - 1], key)
  }

  // No packet is left incomplete for longer than the lifetime before this event.
  ghost predicate OnTime(before: seq<Event>, e: Event, keys: seq<Key>, sent: Sent) {
    e.Arrive? || e.Tick? ==>
      forall key | key in keys && key in sent && TallyOf(before, key, sent[key]).covered != {} ::
        e.now - LastFrame(before, key) <= REASSEMBLY_LIFETIME
  }

  // The packets that are incomplete after these events
  ghost function Open(events: seq<Event>, keys: seq<Key>, sent: Sent): seq<Key> {
    if keys == [] then []
    else
      (if keys[0] in sent && TallyOf(events, keys[0], sent[keys[0]]).covered != {} then [keys[0]] else [])
      + Open(events, keys[1..], sent)
  }

  lemma {:induction false} OpenIff(events: seq<Event>, keys: seq<Key>, sent: Sent, key: Key)
    ensures key in Open(events, keys, sent) <==>
              key in keys && key in sent && TallyOf(events, key, sent[key]).covered != {}
  {
    hide TallyOf;
    if keys != [] {
      OpenIff(events, keys[1..], sent, key);
    }
  }

  // A packet that begins fits into the table beside what it held at first and the packets incomplete then.
  ghost predicate HasPlace(table: seq<Reassembly>, before: seq<Event>, e: Event, keys: seq<Key>, sent: Sent) {
    e.Arrive? && ParseFrame(e.data).Some? && ParseFrame(e.data).value.count > 1 ==>
      var own := KeyOf(e.sender, ParseFrame(e.data).value);
      var open := Open(before, keys, sent);
      own !in open ==> RoomFor(table, open + [own], sent)
  }

  ghost predicate Spaced(table: seq<Reassembly>, events: seq<Event>, keys: seq<Key>, sent: Sent) {
    events == [] ||
    (var before, e := events[..|events| - 1], events[|events| - 1];
     Spaced(table, before, keys, sent) && OnTime(before, e, keys, sent) && HasPlace(table, before, e, keys, sent))
  }

  // Counting the table

  lemma {:induction false} SizeOfRemoveAt(keys: seq<Key>, sent: Sent, i: nat)
    requires i < |keys| && keys[i] in sent
    ensures SizeOf(keys, sent) == SizeOf(RemoveAt(keys, i), sent) + |sent[keys[i]]|
  {
    if i == 0 {
      assert RemoveAt(keys, 0) == keys[1..];
    } else {
      SizeOfRemoveAt(keys[1..], sent, i - 1);
      assert RemoveAt(keys, i)[1..] == RemoveAt(keys[1..], i - 1);
    }
  }

  lemma RemoveAtKeeps<T>(s: seq<T>, i: nat, x: T)
    requires i < |s| && x in s && x != s[i]
    ensures x in RemoveAt(s, i)
  {
    var j :| 0 <= j < |s| && s[j] == x;
    assert RemoveAt(s, i)[if j < i then j else j - 1] == x;
  }

  // An entry is one of the stale ones, or of one of the packets.
  ghost predicate Accounted(r: Reassembly, stale: seq<Reassembly>, keys: seq<Key>, sent: Sent) {
    r in stale || (r.key in keys && r.key in sent && |r.data| == |sent[r.key]|)
  }

  lemma {:induction false} TableWithin(table: seq<Reassembly>, stale: seq<Reassembly>, keys: seq<Key>, sent: Sent)
    requires DistinctKeys(table)
    requires forall i | 0 <= i < |table| :: Accounted(table[i], stale, keys, sent)
    ensures |table| <= |stale| + |keys|
    ensures TableBytes(table) <= TableBytes(stale) + SizeOf(keys, sent)
    decreases |table|
  {
    if table != [] {
      var r := table[0];
      var rest := table[1..];
      if r in stale {
        var j :| 0 <= j < |stale| && stale[j] == r;
        TableBytesRemoveAt(stale, j);
        forall i | 0 <= i < |rest| ensures Accounted(rest[i], RemoveAt(stale, j), keys, sent) {
          assert rest[i] == table[i + 1];
          if rest[i] in stale {
            RemoveAtKeeps(stale, j, rest[i]);
          }
        }
        TableWithin(rest, RemoveAt(stale, j), keys, sent);
      } else {
        var j :| 0 <= j < |keys| && keys[j] == r.key;
        SizeOfRemoveAt(keys, sent, j);
        forall i | 0 <= i < |rest| ensures Accounted(rest[i], stale, RemoveAt(keys, j), sent) {
          assert rest[i] == table[i + 1];
          if rest[i] !in stale {
            RemoveAtKeeps(keys, j, rest[i].key);
          }
        }
        TableWithin(rest, stale, RemoveAt(keys, j), sent);
      }
    }
  }

  // A packet that has no entry yet needs no eviction.
  lemma NoEviction(live: seq<Reassembly>, stale: seq<Reassembly>, keys: seq<Key>, sent: Sent, key: Key)
    requires DistinctKeys(live) && RoomFor(stale, keys, sent)
    requires forall i | 0 <= i < |live| :: Accounted(live[i], stale, keys, sent) && live[i].key != key
    requires key in keys && key in sent
    ensures HasRoom(live, |sent[key]|)
  {
    var j :| 0 <= j < |keys| && keys[j] == key;
    SizeOfRemoveAt(keys, sent, j);
    forall i | 0 <= i < |live| ensures Accounted(live[i], stale, RemoveAt(keys, j), sent) {
      if live[i] !in stale {
        RemoveAtKeeps(keys, j, live[i].key);
      }
    }
    TableWithin(live, stale, RemoveAt(keys, j), sent);
  }

  // A frame of another packet leaves an entry as it is when that entry is not expired and nothing is evicted.
  lemma OthersKept(s: State, sender: Address, f: Fragment, now: real, key: Key, r: Reassembly)
    requires Inv(s) && WellFormed(f) && f.count > 1 && KeyOf(sender, f) != key
    requires Lookup(s.reassemblies, key) == Some(r) && !Expired(r, now)
    requires var live := Cleanup(s.reassemblies, now);
             Lookup(live, KeyOf(sender, f)) == None ==> HasRoom(live, f.totalSize)
    requires Collectable(Target(s, KeyOf(sender, f), f, now), f)
    ensures Lookup(Accept(s, sender, f, now).state.reassemblies, key) == Some(r)
  {
    hide CollectAt, Emit, TableBytes, QueueBytes, FragmentCount, ChunkSize, CountTrue, Cleanup;
    var own := KeyOf(sender, f);
    var live := Cleanup(s.reassemblies, now);
    CleanupEffect(s.reassemblies, now);
    SubtableOk(live, s.reassemblies);
    AcceptKeepsInv(s, sender, f, now);
    LookupIffIn(s.reassemblies, key, r);
    assert r in live;
    var found := Find(live, own);
    if found == |live| {
      NewEntryOk(own, f, now);
      LookupNone(live, own);
      var table := live + [NewEntry(own, f, now)];
      assert MakeRoom(live, f.totalSize) == live;
      CollectAtEffect(s, table, |live|, f, now);
      StoreKeepsCount(table[|live|], f, now);
      assert r in table;
    } else {
      CollectAtEffect(s, live, found, f, now);
      StoreKeepsCount(live[found], f, now);
    }
    LookupIffIn(Accept(s, sender, f, now).state.reassemblies, key, r);
  }

  // Runs

  // What holds after these events: every packet's entry is as its tally says, and as old as its last frame.
  ghost predicate UnderWay(s: State, stale: seq<Reassembly>, keys: seq<Key>, sent: Sent, events: seq<Event>)
    requires KnownKeys(keys, sent)
  {
    && Inv(s)
    && (forall r | r in s.reassemblies :: r in stale || r.key in keys)
    && (forall key | key in keys ::
          Progress(s, key, sent[key], TallyOf(events, key, sent[key]).covered)
          && UpdatedAt(s, key, LastFrame(events, key)))
  }

  lemma AllAccounted(s: State, stale: seq<Reassembly>, keys: seq<Key>, sent: Sent, events: seq<Event>)
    requires KnownKeys(keys, sent) && UnderWay(s, stale, keys, sent, events)
    ensures forall r | r in s.reassemblies :: Accounted(r, stale, Open(events, keys, sent), sent)
  {
    hide TallyOf, LastFrame, UpdatedAt, Open, Find;
    forall r | r in s.reassemblies ensures Accounted(r, stale, Open(events, keys, sent), sent) {
      if r !in stale {
        ProgressIsCoherent(s, r.key, sent[r.key], TallyOf(events, r.key, sent[r.key]).covered);
        LookupIffIn(s.reassemblies, r.key, r);
        OpenIff(events, keys, sent, r.key);
      }
    }
  }

  lemma Fresh(s: State, key: Key, t: Tally, payload: bytes, last: real, now: real)
    requires Progress(s, key, payload, t.covered) && UpdatedAt(s, key, last)
    requires t.covered != {} ==> now - last <= REASSEMBLY_LIFETIME
    ensures Lookup(s.reassemblies, key).Some? ==> !Expired(Lookup(s.reassemblies, key).value, now)
  {
    hide Inv, Coherent, Find;
  }

  // A packet without an entry that has not expired is not incomplete.
  lemma NotOpen(s: State, stale: seq<Reassembly>, keys: seq<Key>, sent: Sent, before: seq<Event>, own: Key, now: real)
    requires KnownKeys(keys, sent) && UnderWay(s, stale, keys, sent, before) && own in keys
    requires TallyOf(before, own, sent[own]).covered != {} ==> now - LastFrame(before, own) <= REASSEMBLY_LIFETIME
    requires Lookup(Cleanup(s.reassemblies, now), own) == None
    ensures own !in Open(before, keys, sent)
  {
    hide TallyOf, LastFrame, Find, Cleanup, Coherent, Open;
    OpenIff(before, keys, sent, own);
    Fresh(s, own, TallyOf(before, own, sent[own]), sent[own], LastFrame(before, own), now);
    if Lookup(s.reassemblies, own).Some? {
      KeptByCleanup(s.reassemblies, own, now);
    }
  }

  // The frame of one packet keeps the entry of another.
  lemma FrameKeepsOthers(s: State, stale: seq<Reassembly>, keys: seq<Key>, sent: Sent, before: seq<Event>, e: Event,
                         key: Key)
    requires KnownKeys(keys, sent) && UnderWay(s, stale, keys, sent, before)
    requires Traffic(e, keys, sent) && OnTime(before, e, keys, sent) && HasPlace(stale, before, e, keys, sent)
    requires key in keys && !Concerns(e, key) && Lookup(s.reassemblies, key).Some?
    requires e.Arrive? && ParseFrame(e.data).Some? && ParseFrame(e.data).value.count > 1
    ensures Lookup(Step(s, e).state.reassemblies, key) == Lookup(s.reassemblies, key)
  {
    var f := ParseFrame(e.data).value;
    var own := KeyOf(e.sender, f);
    ParsedIsWellFormed(e.data);
    assert Step(s, e) == Accept(s, e.sender, f, e.now);
    assert own in keys && own != key && Genuine(f, sent[own]) && f.totalSize == |sent[own]|;
    var open := Open(before, keys, sent);
    hide ParseFrame, Genuine, TallyOf, LastFrame, Find, RoomFor, Step, Accept, Cleanup, Coherent, Traffic, Open;
    ProgressIsCoherent(s, own, sent[own], TallyOf(before, own, sent[own]).covered);
    TargetGenuine(s, own, f, e.now, sent[own]);
    Fresh(s, key, TallyOf(before, key, sent[key]), sent[key], LastFrame(before, key), e.now);
    var live := Cleanup(s.reassemblies, e.now);
    if Lookup(live, own) == None {
      CleanupEffect(s.reassemblies, e.now);
      AllAccounted(s, stale, keys, sent, before);
      LookupNone(live, own);
      NotOpen(s, stale, keys, sent, before, own, e.now);
      forall i | 0 <= i < |live| ensures Accounted(live[i], stale, open + [own], sent) && live[i].key != own {
        assert live[i] in live;
      }
      hide Accounted;
      assert RoomFor(stale, open + [own], sent);
      NoEviction(live, stale, open + [own], sent, own);
    }
    OthersKept(s, e.sender, f, e.now, key, Lookup(s.reassemblies, key).value);
  }

  lemma EventKeepsOthers(s: State, stale: seq<Reassembly>, keys: seq<Key>, sent: Sent, before: seq<Event>, e: Event,
                         key: Key)
    requires KnownKeys(keys, sent) && UnderWay(s, stale, keys, sent, before)
    requires Traffic(e, keys, sent) && OnTime(before, e, keys, sent) && HasPlace(stale, before, e, keys, sent)
    requires key in keys && !Concerns(e, key) && Lookup(s.reassemblies, key).Some?
    ensures Lookup(Step(s, e).state.reassemblies, key) == Lookup(s.reassemblies, key)
  {
    if e.Arrive? && ParseFrame(e.data).Some? {
      ParsedIsWellFormed(e.data);
      hide ParseFrame, UnderWay, HasPlace, OnTime, Find;
      if ParseFrame(e.data).value.count > 1 {
        FrameKeepsOthers(s, stale, keys, sent, before, e, key);
      }
    } else if e.Tick? {
      hide TallyOf, LastFrame, Find, HasPlace, Cleanup, Coherent;
      Fresh(s, key, TallyOf(before, key, sent[key]), sent[key], LastFrame(before, key), e.now);
      KeptByCleanup(s.reassemblies, key, e.now);
    }
  }

  lemma PacketSurvives(s: State, stale: seq<Reassembly>, keys: seq<Key>, sent: Sent, before: seq<Event>, e: Event,
                       key: Key)
    requires KnownKeys(keys, sent) && UnderWay(s, stale, keys, sent, before)
    requires Traffic(e, keys, sent) && OnTime(before, e, keys, sent) && HasPlace(stale, before, e, keys, sent)
    requires key in keys
    requires TallyOf(before, key, sent[key]).covered < All(sent[key])
    ensures Survives(s, e, key)
    ensures UpdatedAt(Step(s, e).state, key, if Concerns(e, key) then e.now else LastFrame(before, key))
  {
    var t := TallyOf(before, key, sent[key]);
    if Concerns(e, key) {
      assert OwnOrUnrelated(e, key, sent[key]);
      hide ParseFrame, Genuine, TallyOf, LastFrame, Find, HasPlace, Step, Cleanup, Coherent, Below, FragmentCount;
      Fresh(s, key, t, sent[key], LastFrame(before, key), e.now);
      if Lookup(s.reassemblies, key).Some? {
        KeptByCleanup(s.reassemblies, key, e.now);
      }
      StepOwn(s, e, key, sent[key], t.covered);
    } else {
      hide ParseFrame, TallyOf, LastFrame, HasPlace, Step, Coherent, Below, Traffic, OnTime, Concerns, Find;
      if Lookup(s.reassemblies, key).Some? {
        EventKeepsOthers(s, stale, keys, sent, before, e, key);
      } else {
        StepUnrelated(s, e, key, sent[key], t.covered);
      }
    }
  }

  lemma TableAfter(s: State, stale: seq<Reassembly>, keys: seq<Key>, sent: Sent, e: Event)
    requires Inv(s) && Traffic(e, keys, sent)
    requires forall r | r in s.reassemblies :: r in stale || r.key in keys
    ensures forall r | r in Step(s, e).state.reassemblies :: r in stale || r.key in keys
  {
    hide ParseFrame, Accept, Cleanup;
    match e {
      case Arrive(sender, data, now) =>
        if ParseFrame(data).Some? {
          ParsedIsWellFormed(data);
          var f := ParseFrame(data).value;
          if f.count > 1 {
            AcceptEffect(s, sender, f, now);
          } else {
            SingleKeepsTable(s, sender, f, now);
          }
        }
      case Tick(now) => CleanupEffect(s.reassemblies, now);
      case Take(socket) =>
    }
  }

  lemma SingleKeepsTable(s: State, sender: Address, f: Fragment, now: real)
    requires |s.queues| == 2 && WellFormed(f) && f.count <= 1
    ensures Accept(s, sender, f, now).state.reassemblies == s.reassemblies
  {
  }

  lemma TrafficIsOwn(e: Event, keys: seq<Key>, sent: Sent, key: Key)
    requires Traffic(e, keys, sent) && key in keys && key in sent
    ensures OwnOrUnrelated(e, key, sent[key])
  {
    hide ParseFrame, Genuine;
  }

  lemma PacketOfTraffic(s: State, keys: seq<Key>, sent: Sent, events: seq<Event>, key: Key)
    requires Inv(s) && KnownKeys(keys, sent)
    requires key in keys && Lookup(s.reassemblies, key) == None
    requires forall e | e in events :: Traffic(e, keys, sent)
    requires events != [] && OnTime(events[..|events| - 1], events[|events| - 1], keys, sent)
    requires HasPlace(s.reassemblies, events[..|events| - 1], events[|events| - 1], keys, sent)
    requires UnderWay(Run(s, events[..|events| - 1]).state, s.reassemblies, keys, sent, events[..|events| - 1])
    requires Kept(s, sent, events[..|events| - 1], key)
    ensures Kept(s, sent, events, key)
  {
    var last := |events| - 1;
    var before := events[..last];
    var e := events[last];
    var b := Run(s, before).state;
    assert |s.queues| == 2 && e in events && forall x | x in before :: x in events;
    hide Traffic, OnTime, HasPlace, Step, Lookup, Inv, Progress, TallyOf, Survives, Concerns, UnderWay, Tallied,
         OwnOrUnrelated;
    forall x | x in events ensures OwnOrUnrelated(x, key, sent[key]) {
      TrafficIsOwn(x, keys, sent, key);
    }
    TallyInRange(before, key, sent[key]);
    PacketSurvives(b, s.reassemblies, keys, sent, before, e, key);
    HandedOnPerRound(s, key, sent[key], events);
  }

  // What is proved of each packet: it was never dropped, was handed on as often as its tally says, and its entry
  // is as old as its last frame.
  ghost predicate Kept(s: State, sent: Sent, events: seq<Event>, key: Key)
    requires |s.queues| == 2 && key in sent
  {
    && NeverDropped(s, events, key)
    && Tallied(Run(s, events), key, sent[key], TallyOf(events, key, sent[key]))
    && UpdatedAt(Run(s, events).state, key, LastFrame(events, key))
  }

  lemma KeptAtFirst(s: State, sent: Sent, key: Key)
    requires Inv(s) && key in sent && Lookup(s.reassemblies, key) == None
    ensures Kept(s, sent, [], key)
  {
    assert Copies(0, sent[key]) == [];
  }

  lemma KeptIsUnderWay(s: State, stale: seq<Reassembly>, keys: seq<Key>, sent: Sent, events: seq<Event>)
    requires |s.queues| == 2 && KnownKeys(keys, sent) && Inv(Run(s, events).state)
    requires forall r | r in Run(s, events).state.reassemblies :: r in stale || r.key in keys
    requires forall key | key in keys :: Kept(s, sent, events, key)
    ensures UnderWay(Run(s, events).state, stale, keys, sent, events)
  {
    hide Inv, Run, Progress, UpdatedAt, NeverDropped, PayloadsOf, TallyOf, LastFrame;
  }

  lemma {:induction false} TableOfRun(s: State, keys: seq<Key>, sent: Sent, events: seq<Event>)
    requires Inv(s) && forall e | e in events :: Traffic(e, keys, sent)
    ensures Inv(Run(s, events).state)
    ensures forall r | r in Run(s, events).state.reassemblies :: r in s.reassemblies || r.key in keys
  {
    if events != [] {
      hide Traffic, Step;
      var last := |events| - 1;
      assert events[last] in events && forall x | x in events[..last] :: x in events;
      TableOfRun(s, keys, sent, events[..last]);
      StepKeepsInv(Run(s, events[..last]).state, events[last]);
      TableAfter(Run(s, events[..last]).state, s.reassemblies, keys, sent, events[last]);
    }
  }

  lemma {:induction false} AllKept(s: State, keys: seq<Key>, sent: Sent, events: seq<Event>)
    requires Inv(s) && KnownKeys(keys, sent)
    requires forall key | key in keys :: Lookup(s.reassemblies, key) == None
    requires forall e | e in events :: Traffic(e, keys, sent)
    requires Spaced(s.reassemblies, events, keys, sent)
    ensures forall key | key in keys :: Kept(s, sent, events, key)
  {
    assert |s.queues| == 2;
    hide Inv, Traffic, Kept, HasPlace, OnTime, Lookup, UnderWay, Run;
    if events == [] {
      forall key | key in keys ensures Kept(s, sent, [], key) {
        KeptAtFirst(s, sent, key);
      }
    } else {
      var before := events[..|events| - 1];
      assert forall x | x in before :: x in events;
      AllKept(s, keys, sent, before);
      TableOfRun(s, keys, sent, before);
      KeptIsUnderWay(s, s.reassemblies, keys, sent, before);
      forall key | key in keys ensures Kept(s, sent, events, key) {
        PacketOfTraffic(s, keys, sent, events, key);
      }
    }
  }

  /**
    All packets of a run at once, however many: if each that begins fits into the table beside what that held at
    first and the packets incomplete then, no frame of another packet of several fragments arrives, nothing is
    reset, and no incomplete packet waits longer than the lifetime, then none is ever dropped.  So each is handed
    on once for every time its fragments are complete, whatever the order and however they are interleaved.
   */
  lemma TrafficDelivers(s: State, keys: seq<Key>, sent: Sent, events: seq<Event>)
    requires Inv(s) && KnownKeys(keys, sent)
    requires forall key | key in keys :: Lookup(s.reassemblies, key) == None
    requires forall e | e in events :: Traffic(e, keys, sent)
    requires Spaced(s.reassemblies, events, keys, sent)
    ensures forall key | key in keys ::
              && NeverDropped(s, events, key)
              && PayloadsOf(Run(s, events).emitted, key) == Copies(TallyOf(events, key, sent[key]).rounds, sent[key])
              && (Lookup(Run(s, events).state.reassemblies, key) == None <==>
                    TallyOf(events, key, sent[key]).covered == {})
  {
    AllKept(s, keys, sent, events);
    hide Traffic, Spaced, Find, Run, TallyOf, NeverDropped, PayloadsOf, Copies, UpdatedAt, LastFrame;
  }
}
