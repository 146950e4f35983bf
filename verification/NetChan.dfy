/**
  The reliable sub-channel receiver, CNetChan::ReadSubChannelData in src/engine/net_chan.cpp, on
  decoded fields.  Decompression and message handling are parameters (Env).
 */
module NetChan {
  import opened Bytes

  const FRAGMENT_SIZE := 0x230
  const NET_MAX_PAYLOAD := 0x40000
  const SEQUENCE_MODULUS := 0x400
  const INT_MAX := 0x7FFF_FFFF

  type Sequence = s: int | 0 <= s < SEQUENCE_MODULUS witness 0

  // One fragment as it is read from the wire: its header fields and the bytes they announce.
  datatype Fragment =
    | First(transferSize: nat, isCompressed: bool, uncompressedSize: nat, body: bytes)
    | Next(lastFragment: bool, lastSize: nat, body: bytes)

  // One call's worth of input: the sequence number of its first fragment, the nonce if its bit is
  // set (read only when the sequence number is 0), and the fragments up to the continuation bit 0.
  datatype Window = Window(wireFragment: Sequence, nonce: Option<uint32>, fragments: seq<Fragment>)

  // What ProcessMessages is given: the bytes of a whole transfer, or no buffer and the size of the last one.
  datatype Handed = Block(data: bytes) | NoBuffer(blockSize: nat)

  // NET_BufferToBufferDecompress, and the answer of the k-th call of ProcessMessages.
  datatype Env = Env(decompress: (bytes, nat) -> bytes, processed: (nat, Handed) -> bool)

  // A transfer in progress: what its first fragment said, and the bytes received so far.
  datatype Transfer = Transfer(size: nat, isCompressed: bool, uncompressedSize: nat, data: bytes)

  // The receive list: a transfer in progress, or no buffer and the sizes the last transfer left behind.
  datatype Receive = Collecting(transfer: Transfer) | Idle(transferSize: nat, currentOffset: nat, blockSize: nat)

  datatype State = State(
    nonceRemote: uint32,
    receivedRemoteNonce: bool,
    inReliableState: bool,
    pendingRemoteNonceAck: bool,
    subInFragments: nat,
    receive: Receive,
    handed: seq<Handed>)         // everything given to ProcessMessages

  datatype Result = Result(state: State, ok: bool)

  function FragmentSize(f: Fragment): nat {
    match f
    case First(transferSize, _, _, _) => Min(transferSize, FRAGMENT_SIZE)
    case Next(lastFragment, lastSize, _) => if lastFragment then lastSize else FRAGMENT_SIZE
  }

  // The body is what the header announces.
  predicate Decoded(f: Fragment) {
    |f.body| == FragmentSize(f)
  }

  predicate SizesLegal(f: Fragment) {
    (f.First? ==> f.transferSize <= NET_MAX_PAYLOAD) && FragmentSize(f) <= FRAGMENT_SIZE
  }

  function Message(env: Env, t: Transfer): bytes {
    if t.isCompressed then env.decompress(t.data, t.uncompressedSize) else t.data
  }

  // A transfer that has grown to t: it is kept until it is whole, and then handed on.
  function Grown(env: Env, s: State, t: Transfer): Result {
    var s := s.(subInFragments := s.subInFragments + 1);
    if |t.data| != t.size then Result(s.(receive := Collecting(t)), true)
    else
      var message := Message(env, t);
      Result(s.(receive := Idle(t.size, t.size, |message|), handed := s.handed + [Block(message)]),
             env.processed(|s.handed|, Block(message)))
  }

  // A fragment of legal size that is not skipped.
  function Take(env: Env, s: State, f: Fragment): Result {
    match s.receive
    case Collecting(t) =>
      if f.First? || |t.data| + |f.body| > t.size then Result(s, false)
      else Grown(env, s, t.(data := t.data + f.body))
    case Idle(transferSize, currentOffset, blockSize) =>
      if f.First? then Grown(env, s, Transfer(f.transferSize, f.isCompressed, f.uncompressedSize, f.body))
      else if currentOffset + |f.body| > transferSize then Result(s, false)
      else
        // Only an empty continuation behind a finished transfer gets here: it is taken for its end.
        Result(s.(subInFragments := s.subInFragments + 1, handed := s.handed + [NoBuffer(blockSize)]),
               env.processed(|s.handed|, NoBuffer(blockSize)))
  }

  function ReadFragments(env: Env, s: State, fragments: seq<Fragment>, skip: nat): Result
    decreases fragments
  {
    if fragments == [] then Result(s, true)
    else
      var f := fragments[0];
      if f.First? && skip == 0 && s.receive.Collecting? then Result(s, false)
      else if !SizesLegal(f) then Result(s, false)
      else if skip != 0 then ReadFragments(env, s, fragments[1..], skip - 1)
      else
        var r := Take(env, s, f);
        if r.ok then ReadFragments(env, r.state, fragments[1..], 0) else r
  }

  // FreeReceiveList: the offset stays.
  function Freed(r: Receive): Receive {
    match r
    case Collecting(t) => Idle(0, |t.data|, 0)
    case Idle(_, currentOffset, _) => Idle(0, currentOffset, 0)
  }

  // The nonce: a new one restarts the session.
  function ReadNonce(s: State, wireFragment: Sequence, nonce: Option<uint32>): State {
    var s := s.(inReliableState := true);
    if wireFragment != 0 || nonce == None then s.(pendingRemoteNonceAck := false)
    else if nonce.value == s.nonceRemote then s
    else s.(nonceRemote := nonce.value, receivedRemoteNonce := true, inReliableState := false,
            subInFragments := 0, receive := Freed(s.receive), pendingRemoteNonceAck := true)
  }

  function Skip(s: State, wireFragment: Sequence): nat {
    if !s.receivedRemoteNonce then INT_MAX else
      var skip := s.subInFragments % SEQUENCE_MODULUS - wireFragment;
      if skip < 0 then skip + SEQUENCE_MODULUS else skip
  }

  function ReadWindow(env: Env, s: State, w: Window): Result {
    var s := ReadNonce(s, w.wireFragment, w.nonce);
    ReadFragments(env, s, w.fragments, Skip(s, w.wireFragment))
  }

  // A new nonce leaves nothing to receive, and no bytes of the session before can be added to.
  lemma RestartKeepsReceiveOk(s: State, wireFragment: Sequence, nonce: Option<uint32>)
    requires ReceiveOk(s.receive)
    ensures ReceiveOk(ReadNonce(s, wireFragment, nonce).receive)
    ensures wireFragment == 0 && nonce.Some? && nonce.value != s.nonceRemote ==>
              var r := ReadNonce(s, wireFragment, nonce).receive; r.Idle? && r.transferSize == 0
  {
  }

  lemma WindowKeepsReceiveOk(env: Env, s: State, w: Window)
    requires ReceiveOk(s.receive) && forall f | f in w.fragments :: Decoded(f)
    ensures ReceiveOk(ReadWindow(env, s, w).state.receive)
  {
    RestartKeepsReceiveOk(s, w.wireFragment, w.nonce);
    var t := ReadNonce(s, w.wireFragment, w.nonce);
    hide ReadNonce, ReadFragments, ReceiveOk, Decoded, Skip;
    ReadKeepsReceiveOk(env, t, w.fragments, Skip(t, w.wireFragment));
  }

  // Hand-offs without a buffer

  // A transfer in progress has begun and is not whole yet; without one there is nothing left to receive.
  ghost predicate ReceiveOk(r: Receive) {
    match r
    case Collecting(t) => 0 < |t.data| < t.size
    case Idle(transferSize, currentOffset, _) => currentOffset >= transferSize
  }

  lemma TakeKeepsReceiveOk(env: Env, s: State, f: Fragment)
    requires ReceiveOk(s.receive) && Decoded(f)
    ensures ReceiveOk(Take(env, s, f).state.receive)
  {
  }

  lemma {:induction false} ReadKeepsReceiveOk(env: Env, s: State, fragments: seq<Fragment>, skip: nat)
    requires ReceiveOk(s.receive) && forall f | f in fragments :: Decoded(f)
    ensures ReceiveOk(ReadFragments(env, s, fragments, skip).state.receive)
    decreases fragments
  {
    if fragments != [] {
      hide Take, ReceiveOk, Decoded;
      assert fragments[0] in fragments && forall f | f in fragments[1..] :: f in fragments;
      if skip != 0 {
        ReadKeepsReceiveOk(env, s, fragments[1..], skip - 1);
      } else {
        TakeKeepsReceiveOk(env, s, fragments[0]);
        ReadKeepsReceiveOk(env, Take(env, s, fragments[0]).state, fragments[1..], 0);
      }
    }
  }

  // A transfer has ended at its announced size and no new one has begun.
  predicate Spent(r: Receive) {
    r.Idle? && r.currentOffset == r.transferSize
  }

  // An empty continuation hands on no buffer if and only if it comes while the list is spent; no other fragment
  // ever does.
  lemma NoBufferIff(env: Env, s: State, f: Fragment)
    requires ReceiveOk(s.receive) && Decoded(f)
    ensures var handed := Take(env, s, f).state.handed;
            (handed != s.handed && handed[|handed| - 1].NoBuffer?) <==> f.Next? && |f.body| == 0 && Spent(s.receive)
  {
  }

  // The list is spent after every transfer that ends, until the next one begins, ...
  lemma EndedIsSpent(env: Env, s: State, f: Fragment)
    requires ReceiveOk(s.receive) && Decoded(f)
    ensures var r := Take(env, s, f).state;
            Spent(r.receive) <==> (r.handed != s.handed || (Spent(s.receive) && !f.First?))
  {
  }

  // ... and a new nonce spends it only if it had received nothing since it was last empty.
  lemma RestartIsSpent(s: State, nonce: uint32)
    requires ReceiveOk(s.receive) && nonce != s.nonceRemote
    ensures Spent(ReadNonce(s, 0, Some(nonce)).receive) <==> s.receive.Idle? && s.receive.currentOffset == 0
    ensures ReadNonce(s, 0, Some(nonce)).receive.Idle? && ReadNonce(s, 0, Some(nonce)).receive.blockSize == 0
  {
  }

  // A window without an empty continuation hands on blocks only.
  lemma {:induction false} NoEmptyNoBare(env: Env, s: State, fragments: seq<Fragment>, skip: nat)
    requires ReceiveOk(s.receive)
    requires forall f | f in fragments :: Decoded(f) && (f.Next? ==> f.body != [])
    ensures var handed := ReadFragments(env, s, fragments, skip).state.handed;
            s.handed <= handed && forall i | |s.handed| <= i < |handed| :: handed[i].Block?
    decreases fragments
  {
    if fragments != [] {
      var f := fragments[0];
      assert f in fragments && forall x | x in fragments[1..] :: x in fragments;
      if skip != 0 {
        NoEmptyNoBare(env, s, fragments[1..], skip - 1);
      } else {
        NoBufferIff(env, s, f);
        TakeKeepsReceiveOk(env, s, f);
        TakeHandsOnOne(env, s, f);
        hide Take, ReceiveOk, Decoded;
        NoEmptyNoBare(env, Take(env, s, f).state, fragments[1..], 0);
      }
    }
  }

  lemma TakeHandsOnOne(env: Env, s: State, f: Fragment)
    ensures var handed := Take(env, s, f).state.handed;
            handed == s.handed || (|handed| == |s.handed| + 1 && s.handed < handed)
    ensures var r := Take(env, s, f);
            r == Result(s, false) || r.state.subInFragments == s.subInFragments + 1
  {
  }

  // The input that does it: a transfer, and behind it an empty continuation.
  lemma EmptyContinuationHasNoBuffer(env: Env, s: State, body: bytes)
    requires s.receivedRemoteNonce && s.receive.Idle? && 0 < |body| <= FRAGMENT_SIZE
    requires env.processed(|s.handed|, Block(body))
    ensures var w := Window(s.subInFragments % SEQUENCE_MODULUS, None,
                            [First(|body|, false, 0, body), Next(true, 0, [])]);
            && (forall f | f in w.fragments :: Decoded(f))
            && ReadWindow(env, s, w).state.handed == s.handed + [Block(body), NoBuffer(|body|)]
  {
    var first, empty := First(|body|, false, 0, body), Next(true, 0, []);
    var t := ReadNonce(s, s.subInFragments % SEQUENCE_MODULUS, None);
    assert [first, empty][1..] == [empty] && [empty][1..] == [];
    var r := Take(env, t, first).state;
    assert r.handed == s.handed + [Block(body)] && r.receive == Idle(|body|, |body|, |body|);
    var u := Take(env, r, empty);
    assert u.state.handed == s.handed + [Block(body), NoBuffer(|body|)];
    assert ReadFragments(env, u.state, [], 0).state == u.state;
    assert ReadFragments(env, r, [empty], 0).state.handed == u.state.handed;
  }

  // The channel as the object the source updates.

  class Channel {
    const env: Env
    var m_nNonceRemote: uint32
    var m_bReceivedRemoteNonce: bool
    var m_bInReliableState: bool
    var m_bPendingRemoteNonceAck: bool
    var m_nSubInFragments: nat

    // m_ReceiveList
    var buffer: array?<uint8>
    var transferSize: nat
    var blockSize: nat
    var currentOffset: nat
    var isCompressed: bool
    var uncompressedSize: nat

    // What the engine has been given; the answers of Env.processed may depend on its number.
    var handed: seq<Handed>

    // A buffer is held exactly while a transfer is incomplete.  A continuation that finds none runs past the
    // transfer size and is refused, unless it is empty and the last transfer is not forgotten.
    ghost predicate Valid()
      reads this
    {
      && (buffer != null ==> 0 < currentOffset < transferSize == buffer.Length == blockSize)
      && (buffer == null ==> currentOffset >= transferSize && (isCompressed ==> currentOffset > transferSize))
    }

    ghost function Model(): State
      requires Valid()
      reads this, if buffer != null then {buffer} else {}
    {
      State(m_nNonceRemote, m_bReceivedRemoteNonce, m_bInReliableState, m_bPendingRemoteNonceAck, m_nSubInFragments,
            if buffer == null then Idle(transferSize, currentOffset, blockSize)
            else Collecting(Transfer(transferSize, isCompressed, uncompressedSize, buffer[..currentOffset])),
            handed)
    }

    constructor (env: Env)
      ensures Valid() && this.env == env
      ensures Model() == State(0, false, false, false, 0, Idle(0, 0, 0), [])
    {
      this.env := env;
      m_nNonceRemote, m_nSubInFragments := 0, 0;
      m_bReceivedRemoteNonce, m_bInReliableState, m_bPendingRemoteNonceAck := false, false, false;
      buffer, transferSize, blockSize, currentOffset, isCompressed, uncompressedSize := null, 0, 0, 0, false, 0;
      handed := [];
    }

    method FreeReceiveList()
      modifies this`transferSize, this`blockSize, this`buffer
      ensures transferSize == 0 && blockSize == 0 && buffer == null
    {
      blockSize := 0;
      transferSize := 0;
      buffer := null;
    }

    method ReadHeader(wireFragment: Sequence, nonce: Option<uint32>)
      requires Valid()
      modifies this
      ensures Valid() && Model() == ReadNonce(old(Model()), wireFragment, nonce)
      ensures buffer == old(buffer) || buffer == null
    {
      m_bInReliableState := true;
      if wireFragment == 0 {
        if nonce.Some? {
          if nonce.value != m_nNonceRemote {
            m_nNonceRemote := nonce.value;
            m_bReceivedRemoteNonce := true;
            m_bInReliableState := false;
            m_nSubInFragments := 0;
            FreeReceiveList();
            m_bPendingRemoteNonceAck := true;
          }
        } else {
          m_bPendingRemoteNonceAck := false;
        }
      } else {
        m_bPendingRemoteNonceAck := false;
      }
    }

    method BeginTransfer(f: Fragment)
      requires f.First?
      modifies this`transferSize, this`blockSize, this`currentOffset, this`buffer, this`isCompressed,
              this`uncompressedSize
      ensures fresh(buffer) && buffer.Length == transferSize == blockSize == f.transferSize && currentOffset == 0
      ensures isCompressed == f.isCompressed && uncompressedSize == f.uncompressedSize
    {
      transferSize := f.transferSize;
      blockSize := f.transferSize;
      currentOffset := 0;
      buffer := new uint8[f.transferSize];
      isCompressed := f.isCompressed;
      uncompressedSize := f.uncompressedSize;
    }

    // The offset is at the transfer size: what the buffer holds is decompressed if need be and handed on, and
    // the buffer, if there is one, freed.
    method FinishTransfer() returns (ok: bool)
      requires currentOffset == transferSize
      requires if buffer == null then !isCompressed else transferSize == buffer.Length == blockSize
      modifies this`isCompressed, this`blockSize, this`handed, this`buffer
      ensures buffer == null && !isCompressed
      ensures var block := if old(buffer) == null then NoBuffer(old(blockSize))
                           else Block(Message(env, Transfer(transferSize, old(isCompressed), uncompressedSize,
                                                            old(buffer[..]))));
              && handed == old(handed) + [block] && ok == env.processed(|old(handed)|, block)
              && blockSize == if block.Block? then |block.data| else old(blockSize)
    {
      var block := NoBuffer(blockSize);
      if buffer != null {
        var messages := buffer[..];
        if isCompressed {
          messages := env.decompress(messages, uncompressedSize);
          blockSize := |messages|;
          isCompressed := false;
        }
        block := Block(messages);
      }
      ok := env.processed(|handed|, block);
      handed := handed + [block];
      if buffer != null {
        buffer := null;
      }
    }

    method TakeFragment(f: Fragment) returns (ok: bool)
      requires Valid() && Decoded(f) && SizesLegal(f)
      requires f.First? ==> buffer == null
      modifies this, if buffer != null then {buffer} else {}
      ensures Valid() && Result(Model(), ok) == Take(env, old(Model()), f)
      ensures buffer == null || buffer == old(buffer) || fresh(buffer)
    {
      if f.First? {
        BeginTransfer(f);
      }
      var fragmentSize := |f.body|;
      if currentOffset + fragmentSize > transferSize {
        return false;
      }
      if buffer == null {
        ok := TakeWithoutBuffer();
        return;
      }
      ghost var before := buffer[..currentOffset];
      assert f.First? ==> before + f.body == f.body;
      hide Grown;
      ok := StoreBody(f.body);
    }

    // The transfer in progress, which Model() speaks of only once it has begun.
    ghost function Collected(): Transfer
      requires buffer != null && currentOffset <= buffer.Length
      reads this, buffer
    {
      Transfer(transferSize, isCompressed, uncompressedSize, buffer[..currentOffset])
    }

    method StoreBody(body: bytes) returns (ok: bool)
      requires buffer != null && transferSize == blockSize == buffer.Length && currentOffset + |body| <= transferSize
      requires currentOffset + |body| == 0 ==> transferSize == 0
      modifies this`currentOffset, this`m_nSubInFragments, this`isCompressed, this`blockSize, this`handed, this`buffer,
               buffer
      ensures Valid() && (buffer == null || buffer == old(buffer))
      ensures var s := State(m_nNonceRemote, m_bReceivedRemoteNonce, m_bInReliableState, m_bPendingRemoteNonceAck,
                             old(m_nSubInFragments), Idle(0, 0, 0), old(handed));
              var t := old(Collected());
              Result(Model(), ok) == Grown(env, s, t.(data := t.data + body))
    {
      ghost var before := buffer[..currentOffset];
      CopyInto(buffer, currentOffset, body);
      currentOffset := currentOffset + |body|;
      assert buffer[..currentOffset] == before + body;
      m_nSubInFragments := m_nSubInFragments + 1;
      ok := true;
      if currentOffset == transferSize {
        assert buffer[..] == before + body;
        ok := FinishTransfer();
      }
    }

    // Nothing is read to nowhere, and the transfer that ended before ends again.
    method TakeWithoutBuffer() returns (ok: bool)
      requires Valid() && buffer == null && currentOffset <= transferSize
      modifies this
      ensures Valid() && buffer == null
      ensures Result(Model(), ok) == Take(env, old(Model()), Next(true, 0, []))
    {
      m_nSubInFragments := m_nSubInFragments + 1;
      ok := FinishTransfer();
    }

    method ReadSubChannelData(w: Window) returns (ok: bool)
      requires Valid() && forall f | f in w.fragments :: Decoded(f)
      modifies this, if buffer != null then {buffer} else {}
      ensures Valid() && Result(Model(), ok) == ReadWindow(env, old(Model()), w)
    {
      hide Take, ReadNonce, ReceiveOk;
      ghost var oldBuffer := buffer;
      ReadHeader(w.wireFragment, w.nonce);
      var fragmentsToSkip := INT_MAX;
      if m_bReceivedRemoteNonce {
        fragmentsToSkip := m_nSubInFragments % SEQUENCE_MODULUS - w.wireFragment;
        if fragmentsToSkip < 0 {
          fragmentsToSkip := fragmentsToSkip + SEQUENCE_MODULUS;
        }
      }
      ghost var start, skip := Model(), fragmentsToSkip;
      var i := 0;
      while i < |w.fragments|
        invariant Valid() && i <= |w.fragments| && fragmentsToSkip >= 0
        invariant buffer == null || buffer == oldBuffer || fresh(buffer)
        invariant ReadFragments(env, start, w.fragments, skip)
                  == ReadFragments(env, Model(), w.fragments[i..], fragmentsToSkip)
      {
        var f := w.fragments[i];
        assert w.fragments[i..][1..] == w.fragments[i + 1..];
        if f.First? {
          if fragmentsToSkip == 0 && buffer != null {
            return false;
          }
          if f.transferSize > NET_MAX_PAYLOAD {
            return false;
          }
        }
        if FragmentSize(f) > FRAGMENT_SIZE {
          return false;
        }
        if fragmentsToSkip != 0 {
          fragmentsToSkip := fragmentsToSkip - 1;
        } else {
          var taken := TakeFragment(f);
          if !taken {
            return false;
          }
        }
        i := i + 1;
      }
      return true;
    }
  }
}
