/**
  The second promise of the packet transport, over whole runs: a packet is handed on once for every time
  its fragments arrive completely.
 */
module EosExactlyOnce {
  import opened Bytes
  import opened EosFraming
  import opened EosReassembly
  import opened EosInvariants
  import opened EosDelivery
  import opened EosTheorems

  ghost predicate Concerns(e: Event, key: Key) {
    e.Arrive? && ParseFrame(e.data).Some? && KeyOf(e.sender, ParseFrame(e.data).value) == key
  }

  function Below(n: nat): (r: set<nat>)
    ensures forall i: nat :: i in r <==> i < n
  {
    if n == 0 then {} else Below(n - 1) + {n - 1}
  }

  function All(payload: bytes): set<nat> {
    Below(FragmentCount(|payload|))
  }

  // Events under the packet's key are frames of the packet; any other event is allowed.
  ghost predicate OwnOrUnrelated(e: Event, key: Key, payload: bytes) {
    Concerns(e, key) ==> Genuine(ParseFrame(e.data).value, payload)
  }

  ghost function IndexCovered(e: Event, key: Key): set<nat> {
    if Concerns(e, key) then {ParseFrame(e.data).value.index} else {}
  }

  // The partial packet under `key`, if there is one, outlives this event: it does not expire and
  // is not evicted, reset or replaced.
  ghost predicate Survives(s: State, e: Event, key: Key)
    requires |s.queues| == 2
  {
    Lookup(s.reassemblies, key).Some? ==>
      if Concerns(e, key) then Lookup(Cleanup(s.reassemblies, e.now), key).Some?
      else Lookup(Step(s, e).state.reassemblies, key).Some?
  }

  ghost predicate NeverDropped(s: State, events: seq<Event>, key: Key)
    requires |s.queues| == 2
  {
    events == [] ||
    var before := events[..|events| - 1];
    NeverDropped(s, before, key) && Survives(Run(s, before).state, events[|events| - 1], key)
  }

  function PayloadsOf(emitted: seq<Emission>, key: Key): seq<bytes> {
    if emitted == [] then []
    else (if emitted[0].key == key then [emitted[0].payload] else []) + PayloadsOf(emitted[1..], key)
  }

  lemma {:induction false} PayloadsOfConcat(a: seq<Emission>, b: seq<Emission>, key: Key)
    ensures PayloadsOf(a + b, key) == PayloadsOf(a, key) + PayloadsOf(b, key)
  {
    if a == [] {
      assert a + b == b;
    } else {
      assert (a + b)[1..] == a[1..] + b;
      PayloadsOfConcat(a[1..], b, key);
    }
  }

  lemma {:induction false} PayloadsOfOthers(emitted: seq<Emission>, key: Key)
    requires forall e | e in emitted :: e.key != key
    ensures PayloadsOf(emitted, key) == []
  {
    if emitted != [] {
      PayloadsOfOthers(emitted[1..], key);
    }
  }

  // The entry of the packet holds the fragments `covered`; without any there is no entry.
  ghost predicate Progress(s: State, key: Key, payload: bytes, covered: set<nat>) {
    && Inv(s)
    && match Lookup(s.reassemblies, key)
       case None => covered == {}
       case Some(r) =>
         && covered != {} && Coherent(r, payload)
         && forall i: nat | i < |r.receivedFragments| :: r.receivedFragments[i] <==> i in covered
  }

  lemma ProgressIsCoherent(s: State, key: Key, payload: bytes, covered: set<nat>)
    requires Progress(s, key, payload, covered)
    ensures forall r | r in s.reassemblies && r.key == key :: Coherent(r, payload)
  {
    forall r | r in s.reassemblies && r.key == key ensures Coherent(r, payload) {
      LookupIffIn(s.reassemblies, key, r);
    }
  }

  lemma UnrelatedUnderOtherKeys(s: State, e: Event, key: Key)
    requires Inv(s) && !Concerns(e, key)
    ensures var o := Step(s, e);
            && (forall x | x in o.state.reassemblies && x.key == key :: x in s.reassemblies)
            && forall x | x in o.emitted :: x.key != key
  {
    hide ParseFrame, Accept, Cleanup, Lookup;
    match e
    case Arrive(sender, data, now) =>
      if ParseFrame(data).Some? {
        ParsedIsWellFormed(data);
        AcceptUnderOwnKey(s, sender, ParseFrame(data).value, now);
      }
    case Tick(now) => CleanupEffect(s.reassemblies, now);
    case Take(socket) =>
    case Reset =>
  }

  lemma StepUnrelated(s: State, e: Event, key: Key, payload: bytes, covered: set<nat>)
    requires Progress(s, key, payload, covered) && !Concerns(e, key) && Survives(s, e, key)
    ensures Progress(Step(s, e).state, key, payload, covered)
    ensures PayloadsOf(Step(s, e).emitted, key) == []
  {
    StepKeepsInv(s, e);
    UnrelatedUnderOtherKeys(s, e, key);
    hide Step, Find;
    var o := Step(s, e);
    PayloadsOfOthers(o.emitted, key);
    LookupNone(s.reassemblies, key);
    LookupNone(o.state.reassemblies, key);
    if Lookup(o.state.reassemblies, key).Some? {
      var r := Lookup(o.state.reassemblies, key).value;
      LookupIffIn(o.state.reassemblies, key, r);
      LookupIffIn(s.reassemblies, key, r);
    }
  }

  lemma AcceptUnderOwnKey(s: State, sender: Address, f: Fragment, now: real)
    requires Inv(s) && WellFormed(f)
    ensures var o := Accept(s, sender, f, now);
            && (forall x | x in o.state.reassemblies :: x.key == KeyOf(sender, f) || x in s.reassemblies)
            && forall e | e in o.emitted :: e.key == KeyOf(sender, f)
  {
    if f.count > 1 {
      hide Accept;
      AcceptEffect(s, sender, f, now);
    }
  }

  // The packet's own frame: it completes the packet exactly when it is the last one missing.
  lemma StepOwn(s: State, e: Event, key: Key, payload: bytes, covered: set<nat>)
    requires Progress(s, key, payload, covered) && covered < All(payload)
    requires Concerns(e, key) && OwnOrUnrelated(e, key, payload) && Survives(s, e, key)
    ensures var o := Step(s, e);
            var now' := covered + {ParseFrame(e.data).value.index};
            if now' == All(payload) then
              && o.emitted == [Emission(key, payload)]
              && Inv(o.state) && Lookup(o.state.reassemblies, key) == None
            else
              && o.emitted == [] && Progress(o.state, key, payload, now')
              && Lookup(o.state.reassemblies, key).value.lastUpdate == e.now
  {
    var f := ParseFrame(e.data).value;
    ParsedIsWellFormed(e.data);
    StepKeepsInv(s, e);
    hide ParseFrame, Chunk, ChunkSize, FragmentCount, Cleanup;
    assert Step(s, e) == Accept(s, e.sender, f, e.now);
    if f.count == 1 {
      SingleFragment(payload, f, covered);
    } else {
      hide Accept, Genuine;
      OwnFragment(s, e.sender, f, e.now, payload, covered);
    }
  }

  lemma SingleFragment(payload: bytes, f: Fragment, covered: set<nat>)
    requires Genuine(f, payload) && f.count == 1 && covered < All(payload)
    ensures f.payload == payload && covered == {} && covered + {f.index} == All(payload)
  {
    WholeChunk(payload);
    hide Chunk, ChunkSize, FragmentCount, Below, Offset;
    assert All(payload) == {0};
    assert forall i | i in covered :: i in All(payload);
  }

  lemma OwnFragment(s: State, sender: Address, f: Fragment, now: real, payload: bytes, covered: set<nat>)
    requires WellFormed(f) && f.count > 1 && Genuine(f, payload)
    requires Progress(s, KeyOf(sender, f), payload, covered) && covered <= All(payload)
    requires Inv(Accept(s, sender, f, now).state)
    requires Lookup(s.reassemblies, KeyOf(sender, f)).Some? ==>
               Lookup(Cleanup(s.reassemblies, now), KeyOf(sender, f)).Some?
    ensures var key := KeyOf(sender, f);
            var o := Accept(s, sender, f, now);
            var now' := covered + {f.index};
            if now' == All(payload) then
              o.emitted == [Emission(key, payload)] && Lookup(o.state.reassemblies, key) == None
            else
              && o.emitted == [] && Progress(o.state, key, payload, now')
              && Lookup(o.state.reassemblies, key).value.lastUpdate == now
  {
    hide Inv, Accept;
    var key := KeyOf(sender, f);
    ProgressIsCoherent(s, key, payload, covered);
    CollectGenuine(s, key, f, now, payload);
    AcceptEffect(s, sender, f, now);
    var target := Target(s, key, f, now);
    TargetFlags(s, key, f, now, payload, covered);
    hide Accept, Cleanup, FragmentCount, ChunkSize, Target, Coherent;
    var entry := Store(target, f, now);
    CountTrueFull(entry.receivedFragments);
    hide CountTrue;
    var covered' := covered + {f.index};
    assert forall i: nat | i < |entry.receivedFragments| :: entry.receivedFragments[i] <==> i in covered';
    assert |entry.receivedFragments| == FragmentCount(|payload|);
    if entry.receivedCount == |entry.receivedFragments| {
      assert covered' == All(payload);
    } else {
      var i :| 0 <= i < |entry.receivedFragments| && !entry.receivedFragments[i];
      assert i in All(payload) && i !in covered';
    }
  }

  lemma TargetFlags(s: State, key: Key, f: Fragment, now: real, payload: bytes, covered: set<nat>)
    requires Progress(s, key, payload, covered) && Genuine(f, payload)
    requires Lookup(s.reassemblies, key).Some? ==> Lookup(Cleanup(s.reassemblies, now), key).Some?
    ensures var flags := Target(s, key, f, now).receivedFragments;
            |flags| == FragmentCount(|payload|)
            && forall i: nat | i < |flags| :: flags[i] <==> i in covered
  {
    CleanupEffect(s.reassemblies, now);
    SubtableLookup(Cleanup(s.reassemblies, now), s.reassemblies, key);
  }

  // How often the fragments of the packet have arrived completely, and which have arrived since
  datatype Tally = Tally(rounds: nat, covered: set<nat>)

  ghost function Counted(t: Tally, e: Event, key: Key, payload: bytes): Tally {
    var covered := t.covered + IndexCovered(e, key);
    if covered == All(payload) then Tally(t.rounds + 1, {}) else Tally(t.rounds, covered)
  }

  ghost function TallyOf(events: seq<Event>, key: Key, payload: bytes): Tally {
    if events == [] then Tally(0, {})
    else Counted(TallyOf(events[..|events| - 1], key, payload), events[|events| - 1], key, payload)
  }

  lemma {:induction false} TallyInRange(events: seq<Event>, key: Key, payload: bytes)
    requires forall e | e in events :: OwnOrUnrelated(e, key, payload)
    ensures TallyOf(events, key, payload).covered < All(payload)
  {
    if events == [] {
      assert 0 in All(payload);
    } else {
      var last := |events| - 1;
      assert forall x | x in events[..last] :: x in events;
      assert events[last] in events;
      TallyInRange(events[..last], key, payload);
      hide ParseFrame, Below;
      assert 0 in All(payload);
    }
  }

  function Copies(n: nat, payload: bytes): (r: seq<bytes>)
    ensures |r| == n && forall i | 0 <= i < n :: r[i] == payload
  {
    seq(n, _ => payload)
  }

  // What the receiver has done and holds when the tally is t.
  ghost predicate Tallied(o: Outcome, key: Key, payload: bytes, t: Tally) {
    PayloadsOf(o.emitted, key) == Copies(t.rounds, payload) && Progress(o.state, key, payload, t.covered)
  }

  lemma OneMoreOwn(b: Outcome, e: Event, key: Key, payload: bytes, t: Tally)
    requires |b.state.queues| == 2 && t.covered < All(payload) && Tallied(b, key, payload, t)
    requires Concerns(e, key) && OwnOrUnrelated(e, key, payload) && Survives(b.state, e, key)
    ensures var o := Step(b.state, e);
            Tallied(Outcome(o.state, b.emitted + o.emitted), key, payload, Counted(t, e, key, payload))
  {
    hide Step, Genuine, ParseFrame, FragmentCount, Below, Coherent, Find, PayloadsOf, Copies;
    var o := Step(b.state, e);
    PayloadsOfConcat(b.emitted, o.emitted, key);
    StepOwn(b.state, e, key, payload, t.covered);
    PayloadsOfOne(key, payload);
    assert Copies(t.rounds, payload) + [payload] == Copies(t.rounds + 1, payload);
    assert Copies(t.rounds, payload) + [] == Copies(t.rounds, payload);
  }

  lemma PayloadsOfOne(key: Key, payload: bytes)
    ensures PayloadsOf([Emission(key, payload)], key) == [payload] && PayloadsOf([], key) == []
  {
  }

  lemma OneMoreEvent(b: Outcome, e: Event, key: Key, payload: bytes, t: Tally)
    requires |b.state.queues| == 2 && t.covered < All(payload) && Tallied(b, key, payload, t)
    requires OwnOrUnrelated(e, key, payload) && Survives(b.state, e, key)
    ensures var o := Step(b.state, e);
            Tallied(Outcome(o.state, b.emitted + o.emitted), key, payload, Counted(t, e, key, payload))
  {
    hide Step, Genuine, ParseFrame, FragmentCount, Below, Progress, Find, PayloadsOf, Copies;
    if Concerns(e, key) {
      OneMoreOwn(b, e, key, payload, t);
    } else {
      var o := Step(b.state, e);
      PayloadsOfConcat(b.emitted, o.emitted, key);
      StepUnrelated(b.state, e, key, payload, t.covered);
      assert t.covered + IndexCovered(e, key) == t.covered;
      assert PayloadsOf(b.emitted, key) + [] == PayloadsOf(b.emitted, key);
    }
  }

  // Frames of the packet in any order and with any repetitions, among any other events, hand the
  // packet on once for every time its fragments are complete, and hold those that came since.
  lemma {:induction false} HandedOnPerRound(s: State, key: Key, payload: bytes, events: seq<Event>)
    requires Inv(s) && Lookup(s.reassemblies, key) == None
    requires forall e | e in events :: OwnOrUnrelated(e, key, payload)
    requires NeverDropped(s, events, key)
    ensures Tallied(Run(s, events), key, payload, TallyOf(events, key, payload))
  {
    if events == [] {
      assert Copies(0, payload) == [];
    } else {
      hide Genuine, ParseFrame, FragmentCount, Below, Lookup, Step, Tallied;
      var last := |events| - 1;
      assert forall x | x in events[..last] :: x in events;
      assert events[last] in events;
      TallyInRange(events[..last], key, payload);
      HandedOnPerRound(s, key, payload, events[..last]);
      OneMoreEvent(Run(s, events[..last]), events[last], key, payload, TallyOf(events[..last], key, payload));
    }
  }

  // So it is handed on exactly once if and only if its fragments were complete exactly once; and no partial
  // packet is left if and only if none came since.
  lemma DeliveredExactlyOnce(s: State, key: Key, payload: bytes, events: seq<Event>)
    requires Inv(s) && Lookup(s.reassemblies, key) == None
    requires forall e | e in events :: OwnOrUnrelated(e, key, payload)
    requires NeverDropped(s, events, key)
    ensures var o := Run(s, events);
            var t := TallyOf(events, key, payload);
            && (PayloadsOf(o.emitted, key) == [payload] <==> t.rounds == 1)
            && (Lookup(o.state.reassemblies, key) == None <==> t.covered == {})
  {
    HandedOnPerRound(s, key, payload, events);
    hide Run, TallyOf, NeverDropped, OwnOrUnrelated, Inv, Coherent, Find;
    var t := TallyOf(events, key, payload);
    if t.rounds == 1 {
      assert Copies(1, payload) == [payload];
    }
  }

  // What an event hands on stands last in the queue of its socket.
  lemma HandedOnStandsLast(s: State, e: Event)
    requires |s.queues| == 2
    ensures forall x | x in Step(s, e).emitted && |x.payload| <= MAX_ENGINE_PACKET_SIZE ::
              var queue := Step(s, e).state.queues[x.key.destinationSocket];
              queue != [] && queue[|queue| - 1] == PendingPacket(x.key.sender, x.payload)
  {
    hide ParseFrame, Accept;
    if e.Arrive? && ParseFrame(e.data).Some? {
      ParsedIsWellFormed(e.data);
      AcceptQueues(s, e.sender, ParseFrame(e.data).value, e.now);
    }
  }

  lemma LastFragmentStandsLast(s: State, e: Event, key: Key, payload: bytes, covered: set<nat>)
    requires Progress(s, key, payload, covered) && covered < All(payload) && Sendable(payload)
    requires Concerns(e, key) && OwnOrUnrelated(e, key, payload) && Survives(s, e, key)
    requires covered + IndexCovered(e, key) == All(payload)
    ensures var queue := Step(s, e).state.queues[key.destinationSocket];
            queue != [] && queue[|queue| - 1] == PendingPacket(key.sender, payload)
  {
    assert |s.queues| == 2;
    hide Genuine, ParseFrame, FragmentCount, Below, Step, Progress, Inv;
    StepOwn(s, e, key, payload, covered);
    HandedOnStandsLast(s, e);
    assert Emission(key, payload) in Step(s, e).emitted;
  }

  lemma RoundCompletes(t: Tally, e: Event, key: Key, payload: bytes)
    requires t.covered < All(payload) && Counted(t, e, key, payload).rounds > t.rounds
    ensures Concerns(e, key) && t.covered + IndexCovered(e, key) == All(payload)
  {
    hide All;
    var none: set<nat> := {};
    assert t.covered + none == t.covered;
  }

  // The event that completes a round puts the packet last in its queue.
  lemma RoundStandsLast(s: State, key: Key, payload: bytes, events: seq<Event>)
    requires Inv(s) && Lookup(s.reassemblies, key) == None && Sendable(payload)
    requires forall e | e in events :: OwnOrUnrelated(e, key, payload)
    requires NeverDropped(s, events, key)
    requires events != [] &&
             TallyOf(events, key, payload).rounds > TallyOf(events[..|events| - 1], key, payload).rounds
    ensures var queue := Run(s, events).state.queues[key.destinationSocket];
            queue != [] && queue[|queue| - 1] == PendingPacket(key.sender, payload)
  {
    assert |s.queues| == 2;
    hide Genuine, ParseFrame, FragmentCount, Below, Lookup, Step, Progress, Inv, OwnOrUnrelated, Survives;
    var last := |events| - 1;
    assert forall x | x in events[..last] :: x in events;
    assert events[last] in events;
    HandedOnPerRound(s, key, payload, events[..last]);
    TallyInRange(events[..last], key, payload);
    var t := TallyOf(events[..last], key, payload);
    assert TallyOf(events, key, payload) == Counted(t, events[last], key, payload);
    hide TallyOf, Counted, All, IndexCovered, Concerns, PayloadsOf, Copies;
    RoundCompletes(t, events[last], key, payload);
    LastFragmentStandsLast(Run(s, events[..last]).state, events[last], key, payload, t.covered);
  }

  // The packet's own frames alone, no two in a row more than the lifetime apart: nothing expires.

  ghost predicate SteadyOwn(events: seq<Event>, key: Key, payload: bytes) {
    && (forall j | 0 <= j < |events| :: Concerns(events[j], key) && OwnOrUnrelated(events[j], key, payload))
    && forall j | 0 < j < |events| :: events[j].now - events[j - 1].now <= REASSEMBLY_LIFETIME
  }

  // The partial packet is as old as the last frame.
  ghost predicate UpdatedAt(s: State, key: Key, t: real) {
    Lookup(s.reassemblies, key).Some? ==> Lookup(s.reassemblies, key).value.lastUpdate == t
  }

  lemma KeptByCleanup(table: seq<Reassembly>, key: Key, now: real)
    requires DistinctKeys(table) && Lookup(table, key).Some?
    requires !Expired(Lookup(table, key).value, now)
    ensures Lookup(Cleanup(table, now), key) == Lookup(table, key)
  {
    CleanupEffect(table, now);
    hide Cleanup;
    var r := Lookup(table, key).value;
    LookupIffIn(table, key, r);
    LookupIffIn(Cleanup(table, now), key, r);
  }

  lemma SteadyStep(s: State, e: Event, key: Key, payload: bytes, covered: set<nat>, t: real)
    requires Progress(s, key, payload, covered) && covered < All(payload)
    requires Concerns(e, key) && OwnOrUnrelated(e, key, payload)
    requires UpdatedAt(s, key, t) && e.now - t <= REASSEMBLY_LIFETIME
    ensures Survives(s, e, key)
    ensures UpdatedAt(Step(s, e).state, key, e.now)
  {
    hide Genuine, ParseFrame, FragmentCount, Below, Step, Find, Cleanup;
    if Lookup(s.reassemblies, key).Some? {
      KeptByCleanup(s.reassemblies, key, e.now);
    }
    StepOwn(s, e, key, payload, covered);
  }

  lemma SteadyOne(s: State, key: Key, payload: bytes, events: seq<Event>)
    requires Inv(s) && Lookup(s.reassemblies, key) == None
    requires SteadyOwn(events, key, payload) && events != []
    requires var before := events[..|events| - 1];
             NeverDropped(s, before, key)
             && UpdatedAt(Run(s, before).state, key, if before == [] then 0.0 else before[|before| - 1].now)
    ensures var b := Run(s, events[..|events| - 1]).state;
            Survives(b, events[|events| - 1], key)
            && UpdatedAt(Step(b, events[|events| - 1]).state, key, events[|events| - 1].now)
  {
    var last := |events| - 1;
    var before := events[..last];
    assert |s.queues| == 2 && forall j | 0 <= j < |events| :: events[j].Arrive? && Concerns(events[j], key);
    hide Concerns, OwnOrUnrelated, FragmentCount, Below, Step, Find, Coherent, Inv, Survives, TallyOf, IndexCovered;
    HandedOnPerRound(s, key, payload, before);
    TallyInRange(before, key, payload);
    assert last > 0 ==> before[last - 1] == events[last - 1];
    SteadyStep(Run(s, before).state, events[last], key, payload, TallyOf(before, key, payload).covered,
               if last == 0 then events[0].now else events[last - 1].now);
  }

  lemma {:induction false} SteadyRun(s: State, key: Key, payload: bytes, events: seq<Event>)
    requires Inv(s) && Lookup(s.reassemblies, key) == None
    requires SteadyOwn(events, key, payload)
    ensures NeverDropped(s, events, key)
    ensures UpdatedAt(Run(s, events).state, key, if events == [] then 0.0 else events[|events| - 1].now)
  {
    if events != [] {
      hide Concerns, OwnOrUnrelated, FragmentCount, Below, Step, Lookup, Inv, UpdatedAt, Survives, Find;
      var last := |events| - 1;
      var before := events[..last];
      SteadyRun(s, key, payload, before);
      SteadyOne(s, key, payload, events);
    }
  }

  // The frames of one packet, in the given order and at the given times.

  ghost function OwnEvent(key: Key, payload: bytes, i: nat, now: real): Event
    requires Sendable(payload) && i < FragmentCount(|payload|)
  {
    Arrive(key.sender, Frame(payload, key.packetId, key.destinationSocket, i), now)
  }

  lemma OwnEventOk(key: Key, payload: bytes, i: nat, now: real)
    requires Sendable(payload) && i < FragmentCount(|payload|)
    ensures var e := OwnEvent(key, payload, i, now);
            Concerns(e, key) && OwnOrUnrelated(e, key, payload) && IndexCovered(e, key) == {i}
  {
    hide ParseFrame, EncodeHeader;
    ParseOfFrame(payload, key.packetId, key.destinationSocket, i);
  }

  ghost predicate ArrivalsOf(events: seq<Event>, key: Key, payload: bytes, order: seq<nat>)
    requires Sendable(payload)
  {
    && |events| == |order|
    && forall j | 0 <= j < |order| ::
         order[j] < FragmentCount(|payload|) && events[j].Arrive?
         && events[j] == OwnEvent(key, payload, order[j], events[j].now)
  }

  function Elements(order: seq<nat>): set<nat> {
    set i | i in order
  }

  lemma ArrivalsPrefix(events: seq<Event>, key: Key, payload: bytes, order: seq<nat>)
    requires Sendable(payload) && ArrivalsOf(events, key, payload, order)
    ensures forall j | 0 <= j < |order| ::
              Concerns(events[j], key) && OwnOrUnrelated(events[j], key, payload)
              && IndexCovered(events[j], key) == {order[j]}
  {
    hide Concerns, OwnOrUnrelated, OwnEvent, IndexCovered, FragmentCount;
    forall j | 0 <= j < |order|
      ensures Concerns(events[j], key) && OwnOrUnrelated(events[j], key, payload)
              && IndexCovered(events[j], key) == {order[j]}
    {
      OwnEventOk(key, payload, order[j], events[j].now);
    }
  }

  // Until the fragments are complete the tally is their set.
  lemma {:induction false} FirstRound(events: seq<Event>, key: Key, payload: bytes, order: seq<nat>)
    requires Sendable(payload) && ArrivalsOf(events, key, payload, order)
    requires Elements(order) != All(payload)
    ensures TallyOf(events, key, payload) == Tally(0, Elements(order))
  {
    hide Concerns, OwnOrUnrelated, OwnEvent, IndexCovered, FragmentCount, Below;
    if order != [] {
      var last := |order| - 1;
      assert order == order[..last] + [order[last]];
      ArrivalsPrefix(events, key, payload, order);
      assert Elements(order) == Elements(order[..last]) + {order[last]} <= All(payload);
      FirstRound(events[..last], key, payload, order[..last]);
    }
  }

  lemma CoverageComplete(order: seq<nat>, n: nat)
    requires order != [] && order[|order| - 1] !in order[..|order| - 1]
    requires forall j | 0 <= j < |order| :: order[j] < n
    requires forall i: nat | i < n :: i in order
    ensures Elements(order) == Below(n)
    ensures Elements(order[..|order| - 1]) != Below(n)
  {
    hide Below;
    assert order[|order| - 1] in Below(n);
  }

  // Sent and received: the frames of EOS_SendPacket, in any order and with any repetitions up to
  // the one that completes the set, no two in a row more than the lifetime apart, are handed on as
  // one packet equal to the payload, which then stands last in its queue, and no partial packet is left.
  lemma AnyOrderDelivers(s: State, key: Key, payload: bytes, order: seq<nat>, events: seq<Event>)
    requires Inv(s) && Lookup(s.reassemblies, key) == None
    requires Sendable(payload) && ArrivalsOf(events, key, payload, order) && order != []
    requires forall j | 0 < j < |events| :: events[j].now - events[j - 1].now <= REASSEMBLY_LIFETIME
    requires forall i: nat | i < FragmentCount(|payload|) :: i in order
    requires order[|order| - 1] !in order[..|order| - 1]
    ensures var o := Run(s, events);
            var queue := o.state.queues[key.destinationSocket];
            && PayloadsOf(o.emitted, key) == [payload] && Lookup(o.state.reassemblies, key) == None
            && queue != [] && queue[|queue| - 1] == PendingPacket(key.sender, payload)
  {
    hide Concerns, OwnOrUnrelated, OwnEvent, FragmentCount, Below, IndexCovered, Inv, Lookup, Run, NeverDropped;
    var last := |order| - 1;
    ArrivalsPrefix(events, key, payload, order);
    CoverageComplete(order, FragmentCount(|payload|));
    FirstRound(events[..last], key, payload, order[..last]);
    assert order == order[..last] + [order[last]];
    assert TallyOf(events, key, payload) == Tally(1, {}) by {
      assert Elements(order[..last]) + {order[last]} == Elements(order);
    }
    SteadyRun(s, key, payload, events);
    DeliveredExactlyOnce(s, key, payload, events);
    RoundStandsLast(s, key, payload, events);
  }

  // In particular, for every packet, the frames in the order they were sent.
  lemma SentOrderDelivers(s: State, key: Key, payload: bytes, times: seq<real>)
    requires Inv(s) && Lookup(s.reassemblies, key) == None && Sendable(payload)
    requires |times| == FragmentCount(|payload|)
    requires forall j | 0 < j < |times| :: times[j] - times[j - 1] <= REASSEMBLY_LIFETIME
    ensures var o := Run(s, seq(|times|, i requires 0 <= i < |times| => OwnEvent(key, payload, i, times[i])));
            PayloadsOf(o.emitted, key) == [payload] && Lookup(o.state.reassemblies, key) == None
  {
    hide Inv, Lookup, Run, FragmentCount, Frame;
    var n := |times|;
    var order := seq(n, i requires 0 <= i < n => i as nat);
    forall i: nat | i < n ensures i in order {
      assert order[i] == i;
    }
    assert order[n - 1] !in order[..n - 1];
    AnyOrderDelivers(s, key, payload, order, seq(n, i requires 0 <= i < n => OwnEvent(key, payload, i, times[i])));
  }

  // "Exactly once" ends at completion: a repeated frame of a one-fragment packet is a second
  // packet, and a frame that comes after its packet was handed on opens a new partial packet.
  lemma RepeatedSingleFragment(s: State, key: Key, payload: bytes, t0: real, t1: real)
    requires Inv(s) && Sendable(payload) && FragmentCount(|payload|) == 1
    ensures var first := Step(s, OwnEvent(key, payload, 0, t0));
            var second := Step(first.state, OwnEvent(key, payload, 0, t1));
            first.emitted == second.emitted == [Emission(key, payload)]
  {
    ParseOfFrame(payload, key.packetId, key.destinationSocket, 0);
    WholeChunk(payload);
    hide ParseFrame, Frame, Enqueue;
  }

  lemma LateFrameReopens(s: State, key: Key, payload: bytes, i: nat, now: real)
    requires Inv(s) && Lookup(s.reassemblies, key) == None
    requires Sendable(payload) && i < FragmentCount(|payload|) && FragmentCount(|payload|) > 1
    ensures var o := Step(s, OwnEvent(key, payload, i, now));
            o.emitted == [] && Lookup(o.state.reassemblies, key).Some?
  {
    hide FragmentCount, Below, Step, Concerns, OwnOrUnrelated, Genuine, OwnEvent, Find;
    OwnEventOk(key, payload, i, now);
    var e := OwnEvent(key, payload, i, now);
    var other := if i == 0 then 1 else 0;
    assert other in All(payload) && other !in {i};
    StepOwn(s, e, key, payload, {});
  }
}
