/**
  A sender of the reliable stream: how a transfer of up to 0x40000 bytes is cut into fragments of 0x230, which
  fragments the receiver refuses whatever it is about, and that what is cut arrives.
 */
module NetChanSender {
  import opened Bytes
  import opened NetChan
  import opened NetChanStream

  // What is behind the first fragment: full fragments, and a last one of what is left
  function Continuations(rest: bytes): seq<Fragment> {
    if rest == [] then []
    else if |rest| <= 0x230 then [Next(true, |rest|, rest)]
    else [Next(false, 0, rest[..0x230])] + Continuations(rest[0x230..])
  }

  function Cut(wire: bytes, isCompressed: bool, uncompressedSize: nat): Sent {
    var n := Min(|wire|, 0x230);
    Sent(wire, isCompressed, uncompressedSize,
         [First(|wire|, isCompressed, uncompressedSize, wire[..n])] + Continuations(wire[n..]))
  }

  lemma {:induction false} BodiesConcat(a: seq<Fragment>, b: seq<Fragment>)
    ensures Bodies(a + b) == Bodies(a) + Bodies(b)
  {
    if b == [] {
      assert a + b == a;
    } else {
      assert (a + b)[..|a + b| - 1] == a + b[..|b| - 1];
      BodiesConcat(a, b[..|b| - 1]);
    }
  }

  lemma BodiesOne(f: Fragment)
    ensures Bodies([f]) == f.body
  {
  }

  lemma {:induction false} ContinuationsCarry(rest: bytes)
    ensures Bodies(Continuations(rest)) == rest
    ensures forall f | f in Continuations(rest) :: f.Next? && Decoded(f) && SizesLegal(f) && f.body != []
  {
    if |rest| > 0x230 {
      var full := Next(false, 0, rest[..0x230]);
      ContinuationsCarry(rest[0x230..]);
      BodiesConcat([full], Continuations(rest[0x230..]));
      BodiesOne(full);
      assert rest[..0x230] + rest[0x230..] == rest;
    } else if rest != [] {
      BodiesOne(Next(true, |rest|, rest));
    }
  }

  // Any bytes up to the limit can be cut, and no others; ...
  lemma CutIsWellFormed(wire: bytes, isCompressed: bool, uncompressedSize: nat)
    ensures WellFormed(Cut(wire, isCompressed, uncompressedSize)) <==> |wire| <= 0x40000
  {
    var n := Min(|wire|, 0x230);
    var first := First(|wire|, isCompressed, uncompressedSize, wire[..n]);
    ContinuationsCarry(wire[n..]);
    BodiesConcat([first], Continuations(wire[n..]));
    BodiesOne(first);
    assert wire[..n] + wire[n..] == wire;
    hide Continuations, Bodies, Decoded, SizesLegal;
    var fragments := Cut(wire, isCompressed, uncompressedSize).fragments;
    forall i | 0 < i < |fragments| ensures fragments[i] in Continuations(wire[n..]) {
    }
  }

  // ... there is one fragment for every 0x230 bytes begun.
  lemma CutCount(wire: bytes, isCompressed: bool, uncompressedSize: nat)
    ensures |Cut(wire, isCompressed, uncompressedSize).fragments| == Max(1, (|wire| + 0x230 - 1) / 0x230)
  {
    ContinuationsCount(wire[Min(|wire|, 0x230)..]);
  }

  lemma {:induction false} ContinuationsCount(rest: bytes)
    ensures |Continuations(rest)| == (|rest| + 0x230 - 1) / 0x230
  {
    if |rest| > 0x230 {
      ContinuationsCount(rest[0x230..]);
    }
  }

  // Sizes the source refuses: a transfer of more than 0x40000 bytes, a last fragment of more than 0x230.
  predicate TooLarge(f: Fragment) {
    match f
    case First(transferSize, _, _, _) => transferSize > 0x40000
    case Next(lastFragment, lastSize, _) => lastFragment && lastSize > 0x230
  }

  // A window with such a size is never read to its end, skipped or not, ...
  lemma {:induction false} TooLargeIsRefused(env: Env, s: State, fragments: seq<Fragment>, skip: nat)
    requires exists f :: f in fragments && TooLarge(f)
    ensures !ReadFragments(env, s, fragments, skip).ok
    decreases fragments
  {
    hide Take;
    var f := fragments[0];
    if !TooLarge(f) && SizesLegal(f) && !(f.First? && skip == 0 && s.receive.Collecting?) {
      assert forall x | x in fragments && x != f :: x in fragments[1..];
      if skip != 0 {
        TooLargeIsRefused(env, s, fragments[1..], skip - 1);
      } else if Take(env, s, f).ok {
        TooLargeIsRefused(env, Take(env, s, f).state, fragments[1..], 0);
      }
    }
  }

  // ... and a window that is skipped whole is refused for nothing else.
  lemma {:induction false} SkippedIff(env: Env, s: State, fragments: seq<Fragment>, skip: nat)
    requires |fragments| <= skip
    ensures ReadFragments(env, s, fragments, skip).ok <==> forall f | f in fragments :: !TooLarge(f)
    decreases fragments
  {
    if fragments != [] {
      var f := fragments[0];
      assert forall x :: x in fragments <==> x == f || x in fragments[1..];
      assert SizesLegal(f) <==> !TooLarge(f);
      hide SizesLegal, TooLarge, Take;
      SkippedIff(env, s, fragments[1..], skip - 1);
    }
  }

  // The acknowledgement of a nonce is due from the window that brought a new one until one without a nonce, and
  // only that window is not read as part of the reliable state.
  lemma NonceFlags(env: Env, s: State, w: Window)
    ensures var t := ReadWindow(env, s, w).state;
            var isNew := w.wireFragment == 0 && w.nonce.Some? && w.nonce.value != s.nonceRemote;
            && (t.pendingRemoteNonceAck <==> isNew || (w.wireFragment == 0 && w.nonce.Some? && s.pendingRemoteNonceAck))
            && (t.inReliableState <==> !isNew)
            && (t.receivedRemoteNonce <==> isNew || s.receivedRemoteNonce)
            && t.nonceRemote == if isNew then w.nonce.value else s.nonceRemote
  {
    var t := ReadNonce(s, w.wireFragment, w.nonce);
    FlagsStay(env, t, w.fragments, Skip(t, w.wireFragment));
    hide ReadFragments, Skip;
  }

  lemma {:induction false} FlagsStay(env: Env, s: State, fragments: seq<Fragment>, skip: nat)
    ensures var t := ReadFragments(env, s, fragments, skip).state;
            && t.pendingRemoteNonceAck == s.pendingRemoteNonceAck && t.inReliableState == s.inReliableState
            && t.receivedRemoteNonce == s.receivedRemoteNonce && t.nonceRemote == s.nonceRemote
    decreases fragments
  {
    if fragments != [] {
      if skip != 0 {
        FlagsStay(env, s, fragments[1..], skip - 1);
      } else {
        FlagsStay(env, Take(env, s, fragments[0]).state, fragments[1..], 0);
      }
    }
  }

  datatype Payload = Payload(wire: bytes, isCompressed: bool, uncompressedSize: nat)

  function CutAll(payloads: seq<Payload>): seq<Sent> {
    seq(|payloads|, i requires 0 <= i < |payloads| =>
      Cut(payloads[i].wire, payloads[i].isCompressed, payloads[i].uncompressedSize))
  }

  lemma {:induction false} AllCompleted(transfers: seq<Sent>)
    ensures Completed(transfers, |Stream(transfers)|) == |transfers|
  {
    if transfers != [] {
      AllCompleted(transfers[1..]);
    }
  }

  lemma StreamArrives(env: Env, s: State, nonce: uint32, transfers: seq<Sent>)
    requires AllWellFormed(transfers) && nonce != s.nonceRemote && AllProcessed(env)
    ensures ReadWindow(env, s, Window(0, Some(nonce), Stream(transfers))).state.handed
         == s.handed + AllDelivered(env, transfers)
  {
    hide WellFormed, Stream, ReadWindow, At, Completed, AllDelivered;
    var end := |Stream(transfers)|;
    assert Stream(transfers)[..end] == Stream(transfers);
    NewNonceRestarts(env, s, nonce, transfers, end);
    AtIsPrefix(env, ReadWindow(env, s, Window(0, Some(nonce), Stream(transfers))).state, s.handed, transfers, end);
    AllCompleted(transfers);
    assert transfers[..|transfers|] == transfers;
  }

  // What ProcessMessages is to be given for a payload
  function Whole(env: Env, p: Payload): Handed {
    Block(if p.isCompressed then env.decompress(p.wire, p.uncompressedSize) else p.wire)
  }

  /**
    From end to end: payloads of any bytes up to 0x40000 each, cut and sent as one stream behind a new nonce, are
    handed on one by one, each whole and in order, with what the session before it had handed on left as it was.
   */
  lemma PayloadsArrive(env: Env, s: State, nonce: uint32, payloads: seq<Payload>)
    requires forall i | 0 <= i < |payloads| :: |payloads[i].wire| <= 0x40000
    requires nonce != s.nonceRemote && AllProcessed(env)
    ensures ReadWindow(env, s, Window(0, Some(nonce), Stream(CutAll(payloads)))).state.handed
         == s.handed + seq(|payloads|, i requires 0 <= i < |payloads| => Whole(env, payloads[i]))
  {
    var transfers := CutAll(payloads);
    forall i | 0 <= i < |transfers|
      ensures WellFormed(transfers[i]) && Delivered(env, transfers[i]) == Whole(env, payloads[i])
    {
      CutIsWellFormed(payloads[i].wire, payloads[i].isCompressed, payloads[i].uncompressedSize);
    }
    hide WellFormed, Stream, ReadWindow, AllDelivered, Cut, Whole, Delivered;
    StreamArrives(env, s, nonce, transfers);
    forall i | 0 <= i < |payloads| ensures AllDelivered(env, transfers)[i] == Whole(env, payloads[i]) {
      DeliveredAt(env, transfers, i);
    }
    assert AllDelivered(env, transfers) == seq(|payloads|, i requires 0 <= i < |payloads| => Whole(env, payloads[i]));
  }

  // The 10 bits of the wire: a window is taken where it stands exactly if it starts less than 1024 fragments back.
  lemma TenBits(n: nat, start: nat, end: nat)
    requires start <= n
    ensures n < start + 1024 ==> Told(n, start, end)
    ensures n >= start + 1024 && end > start + 1023 ==> !Told(n, start, end)
  {
    ToldIff(n, start, end);
  }
}
