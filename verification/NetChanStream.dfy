/**
  The reliable stream seen from both ends: a remote sender cuts a list of transfers into one stream
  of fragments and sends windows of it, again and again; the receiver hands the transfers on.
 */
module NetChanStream {
  import opened Bytes
  import opened NetChan

  // A transfer and one way of cutting it into fragments.
  datatype Sent = Sent(wire: bytes, isCompressed: bool, uncompressedSize: nat, fragments: seq<Fragment>)

  function Bodies(fragments: seq<Fragment>): bytes {
    if fragments == [] then [] else Bodies(fragments[..|fragments| - 1]) + fragments[|fragments| - 1].body
  }

  // The first fragment announces the transfer; continuations are not empty; together they carry it.
  ghost predicate WellFormed(t: Sent) {
    && |t.wire| <= NET_MAX_PAYLOAD
    && t.fragments != [] && Bodies(t.fragments) == t.wire
    && t.fragments[0] == First(|t.wire|, t.isCompressed, t.uncompressedSize, t.wire[..Min(|t.wire|, FRAGMENT_SIZE)])
    && forall i | 0 < i < |t.fragments| ::
         t.fragments[i].Next? && Decoded(t.fragments[i]) && SizesLegal(t.fragments[i]) && t.fragments[i].body != []
  }

  ghost predicate AllWellFormed(transfers: seq<Sent>) {
    forall i | 0 <= i < |transfers| :: WellFormed(transfers[i])
  }

  function Stream(transfers: seq<Sent>): seq<Fragment> {
    if transfers == [] then [] else transfers[0].fragments + Stream(transfers[1..])
  }

  function Delivered(env: Env, t: Sent): Handed {
    Block(if t.isCompressed then env.decompress(t.wire, t.uncompressedSize) else t.wire)
  }

  function AllDelivered(env: Env, transfers: seq<Sent>): (r: seq<Handed>)
    ensures |r| == |transfers|
  {
    if transfers == [] then [] else [Delivered(env, transfers[0])] + AllDelivered(env, transfers[1..])
  }

  lemma {:induction false} DeliveredAt(env: Env, transfers: seq<Sent>, i: nat)
    requires i < |transfers|
    ensures AllDelivered(env, transfers)[i] == Delivered(env, transfers[i])
  {
    hide Delivered;
    if i > 0 {
      DeliveredAt(env, transfers[1..], i - 1);
    }
  }

  // How many transfers end within the first n fragments of the stream.
  function Completed(transfers: seq<Sent>, n: nat): nat {
    if transfers == [] || n < |transfers[0].fragments| then 0
    else 1 + Completed(transfers[1..], n - |transfers[0].fragments|)
  }

  // The receiver that has taken the first n fragments of the stream in order, having handed on
  // `before` when the stream began.
  ghost predicate At(env: Env, s: State, before: seq<Handed>, transfers: seq<Sent>, n: nat)
    decreases |transfers|
  {
    if transfers == [] then n == 0 && s.receive.Idle? && s.handed == before
    else
      var t := transfers[0];
      if n >= |t.fragments| then
        At(env, s, before + [Delivered(env, t)], transfers[1..], n - |t.fragments|)
      else
        && s.handed == before
        && if n == 0 then s.receive.Idle?
           else s.receive == Collecting(Transfer(|t.wire|, t.isCompressed, t.uncompressedSize,
               Bodies(t.fragments[..n])))
  }

  // Such a receiver has handed on exactly the transfers that end within those fragments: an
  // in-order, exactly-once prefix of what was sent.
  lemma {:induction false} AtIsPrefix(env: Env, s: State, before: seq<Handed>, transfers: seq<Sent>, n: nat)
    requires At(env, s, before, transfers, n)
    ensures Completed(transfers, n) <= |transfers|
    ensures s.handed == before + AllDelivered(env, transfers[..Completed(transfers, n)])
    decreases |transfers|
  {
    hide Delivered;
    if transfers != [] && n >= |transfers[0].fragments| {
      AtIsPrefix(env, s, before + [Delivered(env, transfers[0])], transfers[1..], n - |transfers[0].fragments|);
      var k := Completed(transfers[1..], n - |transfers[0].fragments|);
      assert transfers[..k + 1][1..] == transfers[1..][..k];
    }
  }

  // Cutting

  lemma {:induction false} BodiesGrow(fragments: seq<Fragment>, i: nat, j: nat)
    requires i <= j <= |fragments|
    requires forall k | 0 < k < |fragments| :: |fragments[k].body| > 0
    ensures |Bodies(fragments[..i])| <= |Bodies(fragments[..j])|
    ensures 0 < i < j ==> |Bodies(fragments[..i])| < |Bodies(fragments[..j])|
    decreases j - i
  {
    if i < j {
      BodiesGrow(fragments, i, j - 1);
      assert fragments[..j][..j - 1] == fragments[..j - 1];
    }
  }

  lemma BodiesSnoc(fragments: seq<Fragment>, n: nat)
    requires n < |fragments|
    ensures Bodies(fragments[..n + 1]) == Bodies(fragments[..n]) + fragments[n].body
  {
    assert fragments[..n + 1][..n] == fragments[..n];
  }

  // A transfer is whole after its last fragment and not before.
  lemma PartialSizes(t: Sent, n: nat)
    requires WellFormed(t) && n < |t.fragments|
    ensures var size := |Bodies(t.fragments[..n + 1])|;
            size <= |t.wire| && (size == |t.wire| <==> n + 1 == |t.fragments|)
  {
    BodiesGrow(t.fragments, n + 1, |t.fragments|);
    assert t.fragments[..|t.fragments|] == t.fragments;
  }

  // One fragment in its place advances the receiver by one.
  lemma {:induction false} TakeNext(env: Env, s: State, before: seq<Handed>, transfers: seq<Sent>, n: nat)
    requires At(env, s, before, transfers, n) && AllWellFormed(transfers) && n < |Stream(transfers)|
    ensures var f := Stream(transfers)[n];
            var r := Take(env, s, f);
            && SizesLegal(f) && (f.First? ==> s.receive.Idle?)
            && r.state.subInFragments == s.subInFragments + 1
            && r.state.receivedRemoteNonce == s.receivedRemoteNonce && r.state.nonceRemote == s.nonceRemote
            && At(env, r.state, before, transfers, n + 1)
            && (r.ok <==> |r.state.handed| > |s.handed| ==> env.processed(|s.handed|, r.state.handed[|s.handed|]))
    decreases |transfers|
  {
    hide Take, Delivered, SizesLegal, WellFormed;
    var t := transfers[0];
    if n >= |t.fragments| {
      TakeNext(env, s, before + [Delivered(env, t)], transfers[1..], n - |t.fragments|);
    } else {
      TakeWithin(env, s, t, n);
      var r := Take(env, s, t.fragments[n]);
      if n + 1 == |t.fragments| {
        AtStart(env, r.state, before + [Delivered(env, t)], transfers[1..]);
      }
    }
  }

  lemma AtStart(env: Env, s: State, before: seq<Handed>, transfers: seq<Sent>)
    requires s.receive.Idle? && s.handed == before && AllWellFormed(transfers)
    ensures At(env, s, before, transfers, 0)
  {
  }

  lemma TakeWithin(env: Env, s: State, t: Sent, n: nat)
    requires WellFormed(t) && n < |t.fragments|
    requires if n == 0 then s.receive.Idle?
             else s.receive == Collecting(Transfer(|t.wire|, t.isCompressed, t.uncompressedSize,
                 Bodies(t.fragments[..n])))
    ensures var f := t.fragments[n];
            var r := Take(env, s, f);
            && SizesLegal(f) && (f.First? ==> s.receive.Idle?)
            && r.state == (if n + 1 == |t.fragments| then
                             s.(receive := Idle(|t.wire|, |t.wire|, |Delivered(env, t).data|),
                                handed := s.handed + [Delivered(env, t)])
                           else
                             s.(receive := Collecting(Transfer(|t.wire|, t.isCompressed, t.uncompressedSize,
                                                               Bodies(t.fragments[..n + 1])))))
                          .(subInFragments := s.subInFragments + 1)
            && r.ok == if n + 1 == |t.fragments| then env.processed(|s.handed|, Delivered(env, t)) else true
  {
    BodiesSnoc(t.fragments, n);
    PartialSizes(t, n);
    if n == 0 {
      assert Bodies(t.fragments[..0]) == [];
      assert t.fragments[0].body == Bodies(t.fragments[..1]);
    }
    if n + 1 == |t.fragments| {
      assert t.fragments[..n + 1] == t.fragments;
    }
  }

  // Every answer of ProcessMessages is yes.
  ghost predicate AllProcessed(env: Env) {
    forall k, m :: env.processed(k, m)
  }

  // The receiver of a session: it has a nonce, and its counter says how much of the stream it took.
  ghost predicate InSession(env: Env, s: State, before: seq<Handed>, transfers: seq<Sent>) {
    s.receivedRemoteNonce && At(env, s, before, transfers, s.subInFragments)
  }

  // Reading fragments from position n - skip on: those before n are skipped, the others taken, until
  // a message is refused.
  lemma {:induction false} ReadStream(env: Env, s: State, before: seq<Handed>, transfers: seq<Sent>, w: nat, end: nat)
    requires InSession(env, s, before, transfers) && AllWellFormed(transfers)
    requires w <= end <= |Stream(transfers)| && w <= s.subInFragments
    ensures var r := ReadFragments(env, s, Stream(transfers)[w..end], s.subInFragments - w);
            && InSession(env, r.state, before, transfers)
            && r.state.nonceRemote == s.nonceRemote
            && s.subInFragments <= r.state.subInFragments <= Max(s.subInFragments, end)
            && (r.ok ==> r.state.subInFragments == Max(s.subInFragments, end))
            && (AllProcessed(env) ==> r.ok)
    decreases end - w
  {
    hide Take, Stream, SizesLegal, At;
    var stream := Stream(transfers);
    var n := s.subInFragments;
    if w < end {
      assert stream[w..end][1..] == stream[w + 1..end];
      FragmentsLegal(transfers, w);
      if w < n {
        ReadStream(env, s, before, transfers, w + 1, end);
      } else {
        TakeNext(env, s, before, transfers, n);
        var r := Take(env, s, stream[n]);
        if r.ok {
          ReadStream(env, r.state, before, transfers, w + 1, end);
        }
      }
    }
  }

  lemma {:induction false} FragmentsLegal(transfers: seq<Sent>, i: nat)
    requires AllWellFormed(transfers) && i < |Stream(transfers)|
    ensures SizesLegal(Stream(transfers)[i])
  {
    if i >= |transfers[0].fragments| {
      FragmentsLegal(transfers[1..], i - |transfers[0].fragments|);
    }
  }

  lemma {:induction false} SkipAll(env: Env, s: State, transfers: seq<Sent>, w: nat, end: nat, skip: nat)
    requires AllWellFormed(transfers) && w <= end <= |Stream(transfers)| && end - w <= skip
    ensures ReadFragments(env, s, Stream(transfers)[w..end], skip) == Result(s, true)
    decreases end - w
  {
    if w < end {
      assert Stream(transfers)[w..end][1..] == Stream(transfers)[w + 1..end];
      FragmentsLegal(transfers, w);
      SkipAll(env, s, transfers, w + 1, end, skip - 1);
    }
  }

  // Windows

  // Fragments [start, end) of the stream, and whether the nonce bit is set.
  datatype Slice = Slice(start: nat, end: nat, withNonce: bool)

  function Wire(transfers: seq<Sent>, nonce: uint32, x: Slice): Window
    requires x.start <= x.end <= |Stream(transfers)|
  {
    var wireFragment := x.start % SEQUENCE_MODULUS;
    Window(wireFragment, if wireFragment == 0 && x.withNonce then Some(nonce) else None,
           Stream(transfers)[x.start..x.end])
  }

  // How far behind the receiver, as the 10-bit numbers tell it, a window starts.
  function Gap(n: nat, start: nat): (r: nat)
    ensures r < SEQUENCE_MODULUS
  {
    (n - start) % SEQUENCE_MODULUS
  }

  lemma GapBehind(n: nat, start: nat)
    requires start <= n < start + SEQUENCE_MODULUS
    ensures Gap(n, start) == n - start
  {
  }

  // The numbers do not mislead: the fragment where the skipping ends is the one the receiver waits for, or there
  // is none in the window.
  predicate Told(n: nat, start: nat, end: nat) {
    start + Gap(n, start) == n || end <= start + Gap(n, start)
  }

  // These are the windows that start at most 1023 fragments behind the receiver, and those that are skipped whole.
  lemma ToldIff(n: nat, start: nat, end: nat)
    ensures Told(n, start, end) <==> start <= n < start + 1024 || end - start <= (n - start) % 1024
    ensures Gap(n, start) == (n - start) % 1024
  {
  }

  // In particular those ahead of it by d with at most 1024 - d fragments.
  lemma ToldAhead(n: nat, start: nat, end: nat)
    requires n < start && end - n <= SEQUENCE_MODULUS
    ensures Told(n, start, end)
  {
  }

  lemma SkipIsGap(s: State, start: nat)
    requires s.receivedRemoteNonce
    ensures Skip(s, start % SEQUENCE_MODULUS) == Gap(s.subInFragments, start)
  {
  }

  ghost predicate InReach(s: State, transfers: seq<Sent>, x: Slice) {
    x.start <= x.end <= |Stream(transfers)| && Told(s.subInFragments, x.start, x.end)
  }

  // In a session a window of the stream is its fragments read with that gap.
  lemma ReadWire(env: Env, s: State, transfers: seq<Sent>, x: Slice)
    requires s.receivedRemoteNonce && x.start <= x.end <= |Stream(transfers)|
    ensures var w := Wire(transfers, s.nonceRemote, x);
            var t := ReadNonce(s, w.wireFragment, w.nonce);
            && t.receivedRemoteNonce && t.nonceRemote == s.nonceRemote && t.subInFragments == s.subInFragments
            && t.receive == s.receive && t.handed == s.handed
            && ReadWindow(env, s, w) ==
               ReadFragments(env, t, Stream(transfers)[x.start..x.end], Gap(s.subInFragments, x.start))
  {
    hide ReadFragments, Stream;
    var w := Wire(transfers, s.nonceRemote, x);
    var t := ReadNonce(s, w.wireFragment, w.nonce);
    SkipIsGap(t, x.start);
    hide Skip, Gap;
  }

  // One window: starting at most 1023 fragments behind the receiver it advances the counter to max(n, end) unless
  // a message is refused; otherwise it changes nothing.
  lemma ReadSlice(env: Env, s: State, before: seq<Handed>, transfers: seq<Sent>, x: Slice)
    requires InSession(env, s, before, transfers) && AllWellFormed(transfers) && InReach(s, transfers, x)
    ensures var r := ReadWindow(env, s, Wire(transfers, s.nonceRemote, x));
            && InSession(env, r.state, before, transfers)
            && r.state.nonceRemote == s.nonceRemote
            && s.subInFragments <= r.state.subInFragments
            && if x.start <= s.subInFragments < x.start + SEQUENCE_MODULUS then
                 r.ok || AllProcessed(env) ==> r.state.subInFragments == Max(s.subInFragments, x.end)
               else
                 r.ok && r.state.subInFragments == s.subInFragments && r.state.handed == s.handed
  {
    hide At, AllWellFormed, ReadFragments, ReadWindow, ReadNonce, Stream, Wire, Told, Gap;
    var w := Wire(transfers, s.nonceRemote, x);
    var t := ReadNonce(s, w.wireFragment, w.nonce);
    ToldIff(s.subInFragments, x.start, x.end);
    ReadWire(env, s, transfers, x);
    SameStream(env, s, t, before, transfers, s.subInFragments);
    if x.start <= s.subInFragments < x.start + SEQUENCE_MODULUS {
      GapBehind(s.subInFragments, x.start);
      ReadStream(env, t, before, transfers, x.start, x.end);
    } else {
      SkipAll(env, t, transfers, x.start, x.end, Gap(s.subInFragments, x.start));
    }
  }

  lemma {:induction false} SameStream(
    env: Env, s: State, t: State, before: seq<Handed>, transfers: seq<Sent>, n: nat)
    requires At(env, s, before, transfers, n) && t.receive == s.receive && t.handed == s.handed
    ensures At(env, t, before, transfers, n)
    decreases |transfers|
  {
    if transfers != [] && n >= |transfers[0].fragments| {
      SameStream(env, s, t, before + [Delivered(env, transfers[0])], transfers[1..], n - |transfers[0].fragments|);
    }
  }

  // A run of windows, each in reach of the receiver as it is then.
  ghost predicate IsRun(env: Env, s: State, transfers: seq<Sent>, windows: seq<Slice>, last: State)
    decreases |windows|
  {
    if windows == [] then last == s
    else InReach(s, transfers, windows[0])
         && IsRun(env, ReadWindow(env, s, Wire(transfers, s.nonceRemote, windows[0])).state, transfers, windows[1..],
             last)
  }

  // Whatever windows are lost, repeated or reordered, and across every wrap of the counter: what has
  // been handed on in the session is always a prefix of the transfers sent, each of them once, in
  // order, and whole.
  lemma {:induction false} InOrderExactlyOnce(
    env: Env, s: State, before: seq<Handed>, transfers: seq<Sent>, windows: seq<Slice>, last: State)
    requires InSession(env, s, before, transfers) && AllWellFormed(transfers)
    requires IsRun(env, s, transfers, windows, last)
    ensures InSession(env, last, before, transfers) && s.subInFragments <= last.subInFragments
    ensures var k := Completed(transfers, last.subInFragments);
            k <= |transfers| && last.handed == before + AllDelivered(env, transfers[..k])
    decreases |windows|
  {
    if windows == [] {
      AtIsPrefix(env, s, before, transfers, s.subInFragments);
    } else {
      ReadSlice(env, s, before, transfers, windows[0]);
      var next := ReadWindow(env, s, Wire(transfers, s.nonceRemote, windows[0])).state;
      InOrderExactlyOnce(env, next, before, transfers, windows[1..], last);
    }
  }

  // A new nonce starts a session at the beginning of the new stream, whatever came before.
  lemma NewNonceRestarts(env: Env, s: State, nonce: uint32, transfers: seq<Sent>, end: nat)
    requires nonce != s.nonceRemote && AllWellFormed(transfers) && end <= |Stream(transfers)|
    ensures var r := ReadWindow(env, s, Window(0, Some(nonce), Stream(transfers)[..end]));
            && InSession(env, r.state, s.handed, transfers)
            && r.state.nonceRemote == nonce && r.state.subInFragments <= end
            && (AllProcessed(env) ==> r.state.subInFragments == end)
  {
    var t := ReadNonce(s, 0, Some(nonce));
    AtStart(env, t, s.handed, transfers);
    assert Stream(transfers)[..end] == Stream(transfers)[0..end];
    ReadStream(env, t, s.handed, transfers, 0, end);
  }

  // Before the first nonce everything is skipped.
  lemma {:induction false} NothingBeforeNonce(env: Env, s: State, w: Window)
    requires !s.receivedRemoteNonce && (w.wireFragment != 0 || w.nonce == None || w.nonce.value == s.nonceRemote)
    requires |w.fragments| <= 0x7FFF_FFFF
    ensures var r := ReadWindow(env, s, w).state;
            r.handed == s.handed && r.receive == s.receive && r.subInFragments == s.subInFragments
  {
    SkipMany(env, ReadNonce(s, w.wireFragment, w.nonce), w.fragments, INT_MAX);
  }

  lemma {:induction false} SkipMany(env: Env, s: State, fragments: seq<Fragment>, skip: nat)
    requires |fragments| <= skip
    ensures ReadFragments(env, s, fragments, skip).state == s
    decreases fragments
  {
    if fragments != [] && SizesLegal(fragments[0]) {
      SkipMany(env, s, fragments[1..], skip - 1);
    }
  }

  // Skipping with fragments left over stops at the first of those.
  lemma {:induction false} SkipSome(env: Env, s: State, transfers: seq<Sent>, w: nat, end: nat, skip: nat)
    requires AllWellFormed(transfers) && w + skip < end <= |Stream(transfers)|
    ensures ReadFragments(env, s, Stream(transfers)[w..end], skip)
         == ReadFragments(env, s, Stream(transfers)[w + skip..end], 0)
    decreases skip
  {
    if skip > 0 {
      hide Take;
      assert Stream(transfers)[w..end][1..] == Stream(transfers)[w + 1..end];
      FragmentsLegal(transfers, w);
      SkipSome(env, s, transfers, w + 1, end, skip - 1);
    }
  }

  // What has been handed on stays handed on.
  lemma {:induction false} HandedGrows(env: Env, s: State, fragments: seq<Fragment>, skip: nat)
    ensures s.handed <= ReadFragments(env, s, fragments, skip).state.handed
    decreases fragments
  {
    if fragments != [] {
      TakeHandsOnOne(env, s, fragments[0]);
      hide Take, SizesLegal;
      if skip != 0 {
        HandedGrows(env, s, fragments[1..], skip - 1);
      } else {
        HandedGrows(env, Take(env, s, fragments[0]).state, fragments[1..], 0);
      }
    }
  }

  // Any other window misleads a receiver that is between transfers: the fragment where the skipping ends, which is
  // not the one it waits for, is taken; if it is a whole transfer, that is handed on again, or before its turn.
  lemma OutOfReachMisleads(env: Env, s: State, transfers: seq<Sent>, x: Slice, t: Sent)
    requires s.receivedRemoteNonce && s.receive.Idle? && AllWellFormed(transfers)
    requires x.start <= x.end <= |Stream(transfers)| && !Told(s.subInFragments, x.start, x.end)
    requires WellFormed(t) && t.fragments == [Stream(transfers)[x.start + Gap(s.subInFragments, x.start)]]
    ensures s.handed + [Delivered(env, t)] <= ReadWindow(env, s, Wire(transfers, s.nonceRemote, x)).state.handed
  {
    hide ReadNonce, Skip, Take, SizesLegal, Delivered, Gap, Stream, ReadFragments, ReadWindow, Wire, WellFormed;
    var w := Wire(transfers, s.nonceRemote, x);
    var u := ReadNonce(s, w.wireFragment, w.nonce);
    var at := x.start + Gap(s.subInFragments, x.start);
    ReadWire(env, s, transfers, x);
    assert at < x.end;
    hide Told;
    SkipSome(env, u, transfers, x.start, x.end, Gap(s.subInFragments, x.start));
    TakeFirst(env, u, Stream(transfers)[at..x.end], t);
  }

  lemma TakeFirst(env: Env, s: State, fragments: seq<Fragment>, t: Sent)
    requires s.receive.Idle? && fragments != [] && WellFormed(t) && t.fragments == [fragments[0]]
    ensures s.handed + [Delivered(env, t)] <= ReadFragments(env, s, fragments, 0).state.handed
  {
    TakeWithin(env, s, t, 0);
    hide Take, SizesLegal, Delivered, WellFormed;
    HandedGrows(env, Take(env, s, fragments[0]).state, fragments[1..], 0);
  }

  // A stream of transfers of one byte and one fragment each, all alike but one

  function Single(data: uint8): Sent {
    Sent([data], false, 0, [First(1, false, 0, [data])])
  }

  predicate IsSingle(t: Sent) {
    |t.wire| == 1 && t == Single(t.wire[0])
  }

  function Singles(n: nat, odd: nat): (r: seq<Sent>)
    ensures |r| == n && forall i | 0 <= i < n :: r[i] == Single(if i == odd then 1 else 0)
  {
    seq(n, i => Single(if i == odd then 1 else 0))
  }

  lemma SingleOk(data: uint8)
    ensures WellFormed(Single(data))
  {
    assert Single(data).fragments[..0] == [];
    assert Bodies([]) + [data] == [data];
    assert Single(data).wire[..1] == [data];
  }

  lemma {:induction false} StreamOfSingles(transfers: seq<Sent>)
    requires forall i | 0 <= i < |transfers| :: IsSingle(transfers[i])
    ensures |Stream(transfers)| == |transfers| && AllWellFormed(transfers)
    ensures forall i | 0 <= i < |transfers| :: transfers[i].fragments == [Stream(transfers)[i]]
  {
    hide WellFormed;
    if transfers != [] {
      StreamOfSingles(transfers[1..]);
      SingleOk(transfers[0].wire[0]);
      assert forall i | 1 <= i < |transfers| :: transfers[i] == transfers[1..][i - 1];
    }
  }

  lemma {:induction false} AtSingles(env: Env, s: State, before: seq<Handed>, transfers: seq<Sent>, n: nat)
    requires n <= |transfers| && forall i | 0 <= i < |transfers| :: |transfers[i].fragments| == 1
    requires s.receive.Idle? && s.handed == before + AllDelivered(env, transfers[..n])
    ensures At(env, s, before, transfers, n)
    decreases |transfers|
  {
    if n > 0 {
      assert transfers[..n][1..] == transfers[1..][..n - 1];
      assert s.handed == (before + [Delivered(env, transfers[0])]) + AllDelivered(env, transfers[1..][..n - 1]);
      AtSingles(env, s, before + [Delivered(env, transfers[0])], transfers[1..], n - 1);
    }
  }

  // A stream and a receiver in session that are misled by a window the numbers do not tell.
  lemma Witness(env: Env, n: nat, start: nat, end: nat) returns (s: State, transfers: seq<Sent>)
    requires start <= end && !Told(n, start, end)
    ensures AllWellFormed(transfers) && end <= |Stream(transfers)|
    ensures InSession(env, s, [], transfers) && s.subInFragments == n
    ensures !(ReadWindow(env, s, Wire(transfers, s.nonceRemote, Slice(start, end, false))).state.handed
              <= AllDelivered(env, transfers))
  {
    hide Gap, WellFormed, Delivered, Single, At, ReadWindow, Wire, ReadNonce, Stream, Completed, IsSingle;
    var at := start + Gap(n, start);
    var count := Max(n + 1, end);
    transfers := Singles(count, at);
    SinglesOk(count, at);
    StreamOfSingles(transfers);
    s := State(0, true, true, false, n, Idle(0, 0, 0), AllDelivered(env, transfers[..n]));
    assert s.handed == [] + AllDelivered(env, transfers[..n]);
    AtSingles(env, s, [], transfers, n);
    OutOfReachMisleads(env, s, transfers, Slice(start, end, false), transfers[at]);
    DeliveredAt(env, transfers, n);
    var handed := ReadWindow(env, s, Wire(transfers, s.nonceRemote, Slice(start, end, false))).state.handed;
    assert handed[n] == Delivered(env, transfers[at]);
    SinglesDiffer(env, count, at, n);
  }

  lemma SinglesOk(n: nat, odd: nat)
    ensures forall i | 0 <= i < n :: IsSingle(Singles(n, odd)[i]) && |Singles(n, odd)[i].fragments| == 1
    ensures forall i | 0 <= i < n :: WellFormed(Singles(n, odd)[i])
  {
    SingleOk(0);
    SingleOk(1);
    hide WellFormed;
  }

  lemma SinglesDiffer(env: Env, n: nat, odd: nat, i: nat)
    requires odd < n && i < n && i != odd
    ensures Delivered(env, Singles(n, odd)[i]) != Delivered(env, Singles(n, odd)[odd])
  {
    assert Delivered(env, Singles(n, odd)[i]) == Block([0]) && Delivered(env, Singles(n, odd)[odd]) == Block([1]);
  }

  // Everything handed on is a prefix of what was sent, whatever the stream and the receiver of a session at n.
  ghost predicate AlwaysPrefix(env: Env, n: nat, start: nat, end: nat)
    requires start <= end
  {
    forall s, transfers |
      AllWellFormed(transfers) && end <= |Stream(transfers)| && InSession(env, s, [], transfers)
          && s.subInFragments == n ::
      ReadWindow(env, s, Wire(transfers, s.nonceRemote, Slice(start, end, false))).state.handed
      <= AllDelivered(env, transfers)
  }

  // The condition is exact: a window keeps the order of every stream if and only if the numbers tell it.
  lemma InReachIff(env: Env, n: nat, start: nat, end: nat)
    requires start <= end
    ensures AlwaysPrefix(env, n, start, end) <==> Told(n, start, end)
  {
    hide Told, At, AllWellFormed, Stream, ReadWindow;
    if Told(n, start, end) {
      forall s, transfers |
        AllWellFormed(transfers) && end <= |Stream(transfers)| && InSession(env, s, [], transfers)
            && s.subInFragments == n
        ensures ReadWindow(env, s, Wire(transfers, s.nonceRemote, Slice(start, end, false))).state.handed
             <= AllDelivered(env, transfers)
      {
        ReadSlice(env, s, [], transfers, Slice(start, end, false));
        var r := ReadWindow(env, s, Wire(transfers, s.nonceRemote, Slice(start, end, false))).state;
        AtIsPrefix(env, r, [], transfers, r.subInFragments);
        PrefixDelivered(env, transfers, Completed(transfers, r.subInFragments));
      }
    } else {
      var s, transfers := Witness(env, n, start, end);
    }
  }

  lemma {:induction false} PrefixDelivered(env: Env, transfers: seq<Sent>, k: nat)
    requires k <= |transfers|
    ensures [] + AllDelivered(env, transfers[..k]) <= AllDelivered(env, transfers)
  {
    hide AllDelivered;
    forall i | 0 <= i < k ensures AllDelivered(env, transfers[..k])[i] == AllDelivered(env, transfers)[i] {
      DeliveredAt(env, transfers[..k], i);
      DeliveredAt(env, transfers, i);
    }
  }
}
