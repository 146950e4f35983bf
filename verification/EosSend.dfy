/** EOS_SendPacket of src/eos/eos.cpp. */
module EosSend {
  import opened Bytes
  import opened EosFraming
  import opened EosReassembly
  import opened EosDelivery
  import opened EosTheorems
  import opened EosTransport
  import EosAuth

  predicate Online(s: EosAuth.State) {
    s.initialized && s.ready && s.p2p && s.localUser.Some?
  }

  /**
    EOS_SendPacket.  `results` holds the SDK's answers, one per frame; `wire` collects the bytes
    of the frames it took.  A packet that is not refused uses up one packet id, and what is on
    the wire afterwards is a prefix of its frames: all of them exactly when `ok`.  An answer of
    invalid authentication asks for a login.
   */
  method SendPacket(eos: EosAuth.EosState, sourceSocket: int, fakeAddress: bool, knownUser: bool, nullData: bool,
                    data: bytes, results: seq<SendResult>, now: real) returns (ok: bool, wire: seq<bytes>)
    requires |results| >= FragmentCount(|data|)
    modifies eos
    ensures var refused := !fakeAddress || (nullData && data != []) || |data| > 256 * 1024
                           || (sourceSocket != NS_CLIENT && sourceSocket != NS_SERVER)
                           || !Online(old(eos.Model())) || !knownUser;
            if refused then
              && !ok && wire == [] && eos.nextPacketId == old(eos.nextPacketId)
              && eos.lastSendError == old(eos.lastSendError) && eos.Model() == old(eos.Model())
            else
              && eos.nextPacketId == NextPacketId(old(eos.nextPacketId)) != old(eos.nextPacketId)
              && |wire| <= FragmentCount(|data|)
              && wire == Frames(data, old(eos.nextPacketId), 1 - sourceSocket)[..|wire|]
              && (forall i | 0 <= i < |wire| :: results[i] == Success)
              && (ok <==> |wire| == FragmentCount(|data|))
              && (if ok then eos.lastSendError == Success && eos.Model() == old(eos.Model())
                  else
                    && eos.lastSendError == results[|wire|] != Success
                    && (eos.lastSendError == InvalidAuth ==> !eos.ready)
                    && eos.Model() == if results[|wire|] == InvalidAuth
                                      then EosAuth.RequestLogin(old(eos.Model()), true, now)
                                      else old(eos.Model()))
  {
    ok, wire := false, [];
    if !fakeAddress || (nullData && |data| != 0) || |data| > MAX_ENGINE_PACKET_SIZE {
      return;
    }
    var destinationSocket := GetDestinationSocket(sourceSocket);
    if destinationSocket < 0 {
      return;
    }
    if !eos.initialized || !eos.ready || !eos.p2p || eos.localUser.None? {
      return;
    }
    if !knownUser {
      return;
    }
    var packetId := eos.nextPacketId;
    eos.nextPacketId := NextPacketId(eos.nextPacketId);
    assert eos.Model() == old(eos.Model());
    ok, wire := SendFrames(eos, data, packetId, destinationSocket, results, now);
  }

  // The fragment loop
  method SendFrames(eos: EosAuth.EosState, data: bytes, packetId: uint32, destinationSocket: Socket,
                    results: seq<SendResult>, now: real) returns (ok: bool, wire: seq<bytes>)
    requires Sendable(data) && |results| >= FragmentCount(|data|)
    modifies eos`ready, eos`authState, eos`nextAuthAttempt, eos`lastSendError
    ensures |wire| <= FragmentCount(|data|) && wire == Frames(data, packetId, destinationSocket)[..|wire|]
    ensures forall i | 0 <= i < |wire| :: results[i] == Success
    ensures ok <==> |wire| == FragmentCount(|data|)
    ensures eos.lastSendError == if ok then Success else results[|wire|]
    ensures !ok ==> results[|wire|] != Success
    ensures eos.Model() == if !ok && results[|wire|] == InvalidAuth
                           then EosAuth.RequestLogin(old(eos.Model()), true, now)
                           else old(eos.Model())
  {
    hide EosAuth.RequestLogin, Frame;
    ok, wire := false, [];
    var fragmentCount := Max(1, (|data| + FRAGMENT_PAYLOAD_SIZE - 1) / FRAGMENT_PAYLOAD_SIZE);
    var frame := new uint8[HEADER_SIZE + FRAGMENT_PAYLOAD_SIZE](_ => 0);
    FragmentCountBounded(|data|);
    assert fragmentCount == FragmentCount(|data|);
    hide FragmentCount;
    var fragmentIndex := 0;
    while fragmentIndex < fragmentCount
      invariant fresh(frame) && frame.Length == HEADER_SIZE + FRAGMENT_PAYLOAD_SIZE
      invariant fragmentIndex <= fragmentCount && |wire| == fragmentIndex
      invariant wire == Frames(data, packetId, destinationSocket)[..fragmentIndex]
      invariant forall i | 0 <= i < fragmentIndex :: results[i] == Success
      invariant eos.Model() == old(eos.Model())
    {
      var length := BuildFrame(frame, data, packetId, destinationSocket, fragmentIndex, fragmentCount);
      var sent := frame[..length];
      if results[fragmentIndex] != Success {
        if results[fragmentIndex] == InvalidAuth {
          eos.RequestLoginLocked(true, now);
        }
        eos.lastSendError := results[fragmentIndex];
        return;
      }
      wire := wire + [sent];
      fragmentIndex := fragmentIndex + 1;
    }
    eos.lastSendError := Success;
    ok := true;
  }

  // Runs of sends

  // A packet that is not refused, with the socket it goes to
  datatype Sending = Sending(socket: Socket, payload: bytes)

  // The id of the n-th packet after the one with id `first`
  function IdAfter(first: uint32, n: nat): uint32
    decreases n
  {
    if n == 0 then first else NextPacketId(IdAfter(first, n - 1))
  }

  lemma {:induction false} IdAfterIs(first: uint32, n: nat)
    ensures IdAfter(first, n) == (first + n) % 0x1_0000_0000
  {
    if n > 0 {
      IdAfterIs(first, n - 1);
    }
  }

  // Ids repeat after 2^32 packets and not before.
  lemma IdsRepeatIff(first: uint32, i: nat, j: nat)
    requires i <= j
    ensures IdAfter(first, i) == IdAfter(first, j) <==> (j - i) % 0x1_0000_0000 == 0
  {
    IdAfterIs(first, i);
    IdAfterIs(first, j);
    hide IdAfter;
    SameRest(first + i, j - i);
  }

  lemma SameRest(x: nat, d: nat)
    ensures x % 0x1_0000_0000 == (x + d) % 0x1_0000_0000 <==> d % 0x1_0000_0000 == 0
  {
  }

  lemma IdsDistinct(first: uint32, i: nat, j: nat)
    requires i < j < i + 0x1_0000_0000
    ensures IdAfter(first, i) != IdAfter(first, j)
  {
    IdsRepeatIff(first, i, j);
  }

  function KeyAt(sender: Address, first: uint32, sendings: seq<Sending>, i: nat): Key
    requires i < |sendings|
  {
    Key(sender, IdAfter(first, i), sendings[i].socket)
  }

  // What was sent under each key, the last one counting
  ghost function SentBy(sender: Address, first: uint32, sendings: seq<Sending>): Sent {
    if sendings == [] then map[]
    else
      var last := |sendings| - 1;
      SentBy(sender, first, sendings[..last])[KeyAt(sender, first, sendings, last) := sendings[last].payload]
  }

  // Of up to 2^32 packets since the first id was drawn, each is the one under its key.
  lemma {:induction false} SentOnce(sender: Address, first: uint32, sendings: seq<Sending>, i: nat)
    requires i < |sendings| <= 0x1_0000_0000
    ensures var key := KeyAt(sender, first, sendings, i);
            key in SentBy(sender, first, sendings) && SentBy(sender, first, sendings)[key] == sendings[i].payload
  {
    hide IdAfter;
    var last := |sendings| - 1;
    if i < last {
      SentOnce(sender, first, sendings[..last], i);
      IdsDistinct(first, i, last);
    }
  }

  // All that one peer sent since its first id was drawn
  datatype Log = Log(sender: Address, first: uint32, sendings: seq<Sending>)

  ghost function SentByAll(logs: seq<Log>): Sent {
    if logs == [] then map[]
    else
      var last := logs[|logs| - 1];
      SentByAll(logs[..|logs| - 1]) + SentBy(last.sender, last.first, last.sendings)
  }

  ghost predicate DistinctSenders(logs: seq<Log>) {
    forall i, j | 0 <= i < j < |logs| :: logs[i].sender != logs[j].sender
  }

  lemma {:induction false} SentUnderSender(sender: Address, first: uint32, sendings: seq<Sending>)
    ensures forall key | key in SentBy(sender, first, sendings) :: key.sender == sender
  {
    if sendings != [] {
      SentUnderSender(sender, first, sendings[..|sendings| - 1]);
    }
  }

  lemma {:induction false} SentOnceOfAll(logs: seq<Log>, l: nat, i: nat)
    requires DistinctSenders(logs) && l < |logs| && i < |logs[l].sendings| <= 0x1_0000_0000
    ensures var key := KeyAt(logs[l].sender, logs[l].first, logs[l].sendings, i);
            key in SentByAll(logs) && SentByAll(logs)[key] == logs[l].sendings[i].payload
  {
    hide IdAfter, SentBy;
    var last := |logs| - 1;
    if l < last {
      SentOnceOfAll(logs[..last], l, i);
      SentUnderSender(logs[last].sender, logs[last].first, logs[last].sendings);
    } else {
      SentOnce(logs[l].sender, logs[l].first, logs[l].sendings, i);
    }
  }

  // Frame k of the i-th packet of a log, as EOS_SendPacket puts it on the wire
  ghost function WireOf(log: Log, i: nat, k: nat): bytes
    requires i < |log.sendings| && Sendable(log.sendings[i].payload)
    requires k < FragmentCount(|log.sendings[i].payload|)
  {
    Frames(log.sendings[i].payload, IdAfter(log.first, i), log.sendings[i].socket)[k]
  }

  ghost predicate IsWireOf(log: Log, data: bytes) {
    exists i: nat, k: nat ::
      i < |log.sendings| && Sendable(log.sendings[i].payload) && k < FragmentCount(|log.sendings[i].payload|)
      && data == WireOf(log, i, k)
  }

  // What arrives from a peer is a frame of something it sent, or thrown out by the checks.
  ghost predicate FromLogs(logs: seq<Log>, e: Event) {
    e.Arrive? && ParseFrame(e.data).Some? ==>
      exists l: nat :: l < |logs| && logs[l].sender == e.sender && IsWireOf(logs[l], e.data)
  }

  lemma LogsAreHonest(logs: seq<Log>, e: Event)
    requires DistinctSenders(logs) && (forall l | 0 <= l < |logs| :: |logs[l].sendings| <= 0x1_0000_0000)
    requires FromLogs(logs, e)
    ensures Honest(SentByAll(logs), e)
  {
    hide IdAfter, ParseFrame, Frame, FragmentCount, SentByAll;
    if e.Arrive? && ParseFrame(e.data).Some? {
      var l: nat :| l < |logs| && logs[l].sender == e.sender && IsWireOf(logs[l], e.data);
      var log := logs[l];
      var i: nat, k: nat :|
        i < |log.sendings| && Sendable(log.sendings[i].payload) && k < FragmentCount(|log.sendings[i].payload|)
        && e.data == WireOf(log, i, k);
      SentOnceOfAll(logs, l, i);
      ParseOfFrame(log.sendings[i].payload, IdAfter(log.first, i), log.sendings[i].socket, k);
    }
  }

  /**
    From the senders' side: peers that number up to 2^32 packets each as EOS_SendPacket does are never mixed.
    Whatever becomes of their frames, every packet handed on or queued is one its sender sent to that socket.
   */
  lemma SendersAreNeverMixed(logs: seq<Log>, events: seq<Event>)
    requires DistinctSenders(logs) && (forall l | 0 <= l < |logs| :: |logs[l].sendings| <= 0x1_0000_0000)
    requires forall e | e in events :: FromLogs(logs, e)
    ensures var o := Run(INITIAL, events);
            && SafeState(SentByAll(logs), o.state)
            && forall x | x in o.emitted :: SafeEmission(SentByAll(logs), x)
  {
    hide FromLogs, Honest, SentByAll, Run, SafeState;
    forall e | e in events ensures Honest(SentByAll(logs), e) {
      LogsAreHonest(logs, e);
    }
    NoMixing(SentByAll(logs), events);
  }

  // And what is in that map was sent by that peer to that socket.
  lemma {:induction false} SentByWasSent(sender: Address, first: uint32, sendings: seq<Sending>, key: Key)
    returns (i: nat)
    requires key in SentBy(sender, first, sendings)
    ensures i < |sendings| && key == KeyAt(sender, first, sendings, i)
    ensures SentBy(sender, first, sendings)[key] == sendings[i].payload
  {
    hide IdAfter;
    var last := |sendings| - 1;
    if key == KeyAt(sender, first, sendings, last) {
      i := last;
    } else {
      i := SentByWasSent(sender, first, sendings[..last], key);
    }
  }
}
