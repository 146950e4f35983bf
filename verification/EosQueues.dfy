/** The order in which the engine reads packets, over whole runs: that in which they were handed on. */
module EosQueues {
  import opened Bytes
  import opened EosFraming
  import opened EosReassembly
  import opened EosInvariants
  import opened EosDelivery
  import opened EosTheorems

  // What was handed on to a socket, in order
  function ToSocket(emitted: seq<Emission>, socket: Socket): seq<PendingPacket> {
    if emitted == [] then []
    else
      var e := emitted[|emitted| - 1];
      ToSocket(emitted[..|emitted| - 1], socket)
      + if e.key.destinationSocket == socket then [PendingPacket(e.key.sender, e.payload)] else []
  }

  // Everything that ever stood in a queue: what it held at first, and what was handed on to its socket.
  function Queued(s: State, events: seq<Event>, socket: Socket): seq<PendingPacket>
    requires |s.queues| == 2
  {
    s.queues[socket] + ToSocket(Run(s, events).emitted, socket)
  }

  function ReadBy(s: State, e: Event, socket: Socket): seq<PendingPacket>
    requires |s.queues| == 2
  {
    if e == Take(socket) && s.queues[socket] != [] then [s.queues[socket][0]] else []
  }

  // What the engine has read from a queue
  function ReadIn(s: State, events: seq<Event>, socket: Socket): seq<PendingPacket>
    requires |s.queues| == 2
  {
    if events == [] then []
    else
      var last := |events| - 1;
      ReadIn(s, events[..last], socket) + ReadBy(Run(s, events[..last]).state, events[last], socket)
  }

  // A queue is the end of all that stood in it, and what was read stood before it.
  ghost predicate ReadBefore(all: seq<PendingPacket>, queue: seq<PendingPacket>, read: seq<PendingPacket>) {
    && |queue| <= |all| && queue == all[|all| - |queue|..]
    && Subsequence(read, all[..|all| - |queue|])
  }

  lemma TakeKeepsOrder(all: seq<PendingPacket>, queue: seq<PendingPacket>, read: seq<PendingPacket>)
    requires ReadBefore(all, queue, read) && queue != []
    ensures ReadBefore(all, queue[1..], read + [queue[0]])
  {
    var n := |all| - |queue|;
    SubsequenceNext(read, all[..n], queue[0]);
    hide Subsequence;
    assert all[..n] + [queue[0]] == all[..n + 1];
  }

  // Dropping from the front, and appending
  lemma EmitKeepsOrder(all: seq<PendingPacket>, queue: seq<PendingPacket>, read: seq<PendingPacket>,
                       packet: PendingPacket)
    requires ReadBefore(all, queue, read) && |packet.payload| <= MAX_ENGINE_PACKET_SIZE
    ensures ReadBefore(all + [packet], Enqueue(queue, packet), read)
  {
    EnqueueKeepsLongestSuffix(queue, packet);
    hide Enqueue, QueueOk, Subsequence;
    var r := Enqueue(queue, packet);
    var n, n' := |all| - |queue|, |all| + 1 - |r|;
    assert r == (all + [packet])[n'..];
    assert all[..n] <= (all + [packet])[..n'];
    SubsequenceWithin(read, all[..n], (all + [packet])[..n']);
  }

  lemma ResetKeepsOrder(all: seq<PendingPacket>, queue: seq<PendingPacket>, read: seq<PendingPacket>)
    requires ReadBefore(all, queue, read)
    ensures ReadBefore(all, [], read)
  {
    hide Subsequence;
    assert all[..|all|] == all;
    SubsequenceWithin(read, all[..|all| - |queue|], all);
  }

  lemma {:induction false} ToSocketConcat(a: seq<Emission>, b: seq<Emission>, socket: Socket)
    ensures ToSocket(a + b, socket) == ToSocket(a, socket) + ToSocket(b, socket)
  {
    if b == [] {
      assert a + b == a;
    } else {
      assert (a + b)[..|a + b| - 1] == a + b[..|b| - 1];
      ToSocketConcat(a, b[..|b| - 1], socket);
    }
  }

  // An event hands on at most one packet; a queue changes by that packet, or else by a read or a reset.
  lemma StepQueue(s: State, e: Event, socket: Socket)
    requires Inv(s)
    ensures var o := Step(s, e);
            var queue, queue' := s.queues[socket], o.state.queues[socket];
            var added, read := ToSocket(o.emitted, socket), ReadBy(s, e, socket);
            && (added != [] ==>
                  |added| == 1 && |added[0].payload| <= MAX_ENGINE_PACKET_SIZE && read == []
                  && queue' == Enqueue(queue, added[0]))
            && (added == [] ==> queue' == queue[|read|..] || (queue' == [] && read == []))
            && (read == [] || (queue != [] && read == [queue[0]]))
  {
    hide ParseFrame, Accept, Enqueue;
    assert s.queues[socket][0..] == s.queues[socket];
    if e.Arrive? && ParseFrame(e.data).Some? {
      ParsedIsWellFormed(e.data);
      var o := Accept(s, e.sender, ParseFrame(e.data).value, e.now);
      AcceptQueues(s, e.sender, ParseFrame(e.data).value, e.now);
      AcceptSizes(s, e.sender, ParseFrame(e.data).value, e.now);
      if o.emitted != [] {
        assert o.emitted[0] in o.emitted && o.emitted[..0] == [];
      }
    }
  }

  lemma AcceptSizes(s: State, sender: Address, f: Fragment, now: real)
    requires Inv(s) && WellFormed(f)
    ensures forall x | x in Accept(s, sender, f, now).emitted :: |x.payload| <= MAX_ENGINE_PACKET_SIZE
  {
    if f.count > 1 {
      hide Accept;
      AcceptEffect(s, sender, f, now);
    }
  }

  lemma StepKeepsOrder(s: State, e: Event, socket: Socket, all: seq<PendingPacket>, read: seq<PendingPacket>)
    requires Inv(s) && ReadBefore(all, s.queues[socket], read)
    ensures var o := Step(s, e);
            ReadBefore(all + ToSocket(o.emitted, socket), o.state.queues[socket], read + ReadBy(s, e, socket))
  {
    StepQueue(s, e, socket);
    var queue, added := s.queues[socket], ToSocket(Step(s, e).emitted, socket);
    hide Step, Enqueue, ReadBefore, Inv, ToSocket, ReadBy;
    if added != [] {
      assert added == [added[0]] && read + [] == read;
      EmitKeepsOrder(all, queue, read, added[0]);
    } else {
      assert all + [] == all && read + [] == read;
      ResetKeepsOrder(all, queue, read);
      if ReadBy(s, e, socket) != [] {
        TakeKeepsOrder(all, queue, read);
      } else {
        assert queue[0..] == queue;
      }
    }
  }

  /**
    Over every run each queue is the end of all that was handed on to its socket, and what the engine has read
    stands before that, in the order in which it was handed on and no place twice.
   */
  lemma {:induction false} ReadInOrder(s: State, events: seq<Event>, socket: Socket)
    requires Inv(s)
    ensures ReadBefore(Queued(s, events, socket), Run(s, events).state.queues[socket], ReadIn(s, events, socket))
  {
    if events == [] {
      SubsequenceNone(Queued(s, [], socket)[..0]);
    } else {
      hide Step, ReadBefore, ToSocket, Inv, ReadBy;
      var last := |events| - 1;
      var b := Run(s, events[..last]);
      var o := Step(b.state, events[last]);
      ReadInOrder(s, events[..last], socket);
      ReachableInv(s, events[..last]);
      StepKeepsOrder(b.state, events[last], socket, Queued(s, events[..last], socket),
                     ReadIn(s, events[..last], socket));
      ToSocketConcat(b.emitted, o.emitted, socket);
      Concat3(s.queues[socket], ToSocket(b.emitted, socket), ToSocket(o.emitted, socket));
    }
  }

  lemma Concat3(a: seq<PendingPacket>, b: seq<PendingPacket>, c: seq<PendingPacket>)
    ensures (a + b) + c == a + (b + c)
  {
  }
}
