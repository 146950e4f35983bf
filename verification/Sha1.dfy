/** The SHA1 class of src/mathlib/sha1.cpp, proved against FIPS 180-4. */
module Sha1 {
  import opened Sha1Spec

  const BLOCK_BYTES := 64
  const TWO64 := 0x1_0000_0000_0000_0000

  // SHA1_ROL
  function Rol1(x: Word): (r: Word)
    ensures r == Rotl(x, 1)
  {
    (x << 1) | ((x & 0xffffffff) >> 31)
  }

  function Rol5(x: Word): (r: Word)
    ensures r == Rotl(x, 5)
  {
    (x << 5) | ((x & 0xffffffff) >> 27)
  }

  function Rol30(x: Word): (r: Word)
    ensures r == Rotl(x, 30)
  {
    (x << 30) | ((x & 0xffffffff) >> 2)
  }

  // The mixing expressions of SHA1_R0/R1, R2/R4 and R3 are the functions of section 4.1.1.

  function Choice(w: Word, x: Word, y: Word): Word { (w & (x ^ y)) ^ y }

  function Majority(w: Word, x: Word, y: Word): Word { ((w | x) & y) | (w & x) }

  lemma ChoiceBits(w: Word, x: Word, y: Word)
    ensures (w & (x ^ y)) ^ y == (w & x) ^ (!w & y)
  {
  }

  lemma MajorityBits(w: Word, x: Word, y: Word)
    ensures ((w | x) & y) | (w & x) == (w & x) ^ (w & y) ^ (x & y)
  {
  }

  lemma ChoiceIsCh(w: Word, x: Word, y: Word)
    ensures Choice(w, x, y) == Ch(w, x, y)
  {
    ChoiceBits(w, x, y);
  }

  lemma MajorityIsMaj(w: Word, x: Word, y: Word)
    ensures Majority(w, x, y) == Maj(w, x, y)
  {
    MajorityBits(w, x, y);
  }

  // SHA1_R0 and SHA1_R1 before round 20, then SHA1_R2, SHA1_R3 and SHA1_R4
  function Mix(i: nat, w: Word, x: Word, y: Word): Word {
    if i < 20 then Choice(w, x, y)
    else if i < 40 then w ^ x ^ y
    else if i < 60 then Majority(w, x, y)
    else w ^ x ^ y
  }

  lemma MixIsF(i: nat, w: Word, x: Word, y: Word)
    ensures Mix(i, w, x, y) == F(i, w, x, y)
  {
    hide Choice, Majority, Ch, Maj;
    ChoiceIsCh(w, x, y);
    MajorityIsMaj(w, x, y);
  }

  // The 16-word ring before round i: it holds the last 16 words of the 80-word schedule made so far.
  ghost predicate Ring(block: seq<Word>, m: Block, i: nat) {
    var u := if i < 16 then 16 else i;
    |block| == 16 && forall s: nat | u - 16 <= s < u :: block[s % 16] == W(m, s)
  }

  lemma RingStart(m: Block)
    ensures Ring(m, m, 0)
  {
  }

  // The four words SHA1_BLK reads are the ones the schedule asks for.
  lemma RingReads(block: seq<Word>, m: Block, i: nat)
    requires i >= 16 && Ring(block, m, i)
    ensures block[(i + 13) % 16] == W(m, i - 3) && block[(i + 8) % 16] == W(m, i - 8)
    ensures block[(i + 2) % 16] == W(m, i - 14) && block[i % 16] == W(m, i - 16)
  {
    hide W;
    assert block[(i - 3) % 16] == W(m, i - 3);
    assert block[(i - 8) % 16] == W(m, i - 8);
    assert block[(i - 14) % 16] == W(m, i - 14);
    assert block[(i - 16) % 16] == W(m, i - 16);
  }

  // It overwrites the oldest word with the next one of the schedule.
  lemma RingWrites(block: seq<Word>, m: Block, i: nat)
    requires i >= 16 && Ring(block, m, i)
    ensures Ring(block[i % 16 := W(m, i)], m, i + 1)
  {
    hide W;
  }

  // SHA1_BLK
  function NextWord(block: seq<Word>, i: nat): Word
    requires |block| == 16
  {
    Rol1(block[(i + 13) % 16] ^ block[(i + 8) % 16] ^ block[(i + 2) % 16] ^ block[i % 16])
  }

  lemma NextWordIsW(block: seq<Word>, m: Block, i: nat)
    requires i >= 16 && Ring(block, m, i)
    ensures NextWord(block, i) == W(m, i)
  {
    RingReads(block, m, i);
    hide Rotl, Rol1, Ring;
  }

  lemma AddCommutes(x: Word, y: Word)
    ensures Add(x, y) == Add(y, x)
  {
  }

  // z += f + word + k + r
  function MacroAdd(z: Word, f: Word, word: Word, k: Word, r: Word): Word { z + (f + word + k + r) }

  lemma SumInAnyOrder(z: Word, f: Word, word: Word, k: Word, r: Word)
    ensures MacroAdd(z, f, word, k, r) == Sum(r, f, z, k, word)
  {
  }

  // The new z of the macros SHA1_R0 to SHA1_R4
  function MacroSum(v: Word, w: Word, x: Word, y: Word, z: Word, word: Word, i: nat): Word {
    MacroAdd(z, Mix(i, w, x, y), word, K(i), Rol5(v))
  }

  lemma MacroSumIsRound(v: Word, w: Word, x: Word, y: Word, z: Word, word: Word, i: nat)
    ensures MacroSum(v, w, x, y, z, word, i) == Sum(Rotl(v, 5), F(i, w, x, y), z, K(i), word)
  {
    hide Sum, MacroAdd, Rotl, Rol5, F, Mix, K;
    MixIsF(i, w, x, y);
    SumInAnyOrder(z, F(i, w, x, y), word, K(i), Rotl(v, 5));
  }

  // A macro rewrites z and w in place; with the registers named anew one position on, that is one
  // round of section 6.1.2.
  method RoundMacro(block: array<Word>, ghost m: Block, v: Word, w: Word, x: Word, y: Word, z: Word, i: nat)
    returns (w': Word, z': Word)
    requires block.Length == 16 && Ring(block[..], m, i)
    modifies block
    ensures Ring(block[..], m, i + 1)
    ensures Digest(z', v, w', x, y) == Round(Digest(v, w, x, y, z), W(m, i), i)
  {
    hide Sum, Rotl, Rol30, F, W, K, Ring, MacroSum;
    var word := ReadWord(block, m, i);
    MacroSumIsRound(v, w, x, y, z, word, i);
    z' := MacroSum(v, w, x, y, z, word, i);
    w' := Rol30(w);
  }

  // block[i] before round 16, SHA1_BLK(i) from there on
  method ReadWord(block: array<Word>, ghost m: Block, i: nat) returns (word: Word)
    requires block.Length == 16 && Ring(block[..], m, i)
    modifies block
    ensures word == W(m, i) && Ring(block[..], m, i + 1)
  {
    if i < 16 {
      assert block[..][i % 16] == W(m, i);
      return block[i];
    }
    NextWordIsW(block[..], m, i);
    RingWrites(block[..], m, i);
    hide W, NextWord, Ring;
    block[i % 16] := NextWord(block[..], i);
    assert block[..] == old(block[..])[i % 16 := W(m, i)];
    word := block[i % 16];
  }

  lemma OneRound(h: Digest, m: Block, i: nat)
    ensures Rounds(h, m, i + 1) == Round(Rounds(h, m, i), W(m, i), i)
  {
  }

  // After five macro calls every register is back under its own name.
  method FiveRounds(block: array<Word>, ghost m: Block, ghost h: Digest,
                    a0: Word, b0: Word, c0: Word, d0: Word, e0: Word, i: nat)
    returns (a: Word, b: Word, c: Word, d: Word, e: Word)
    requires block.Length == 16 && Ring(block[..], m, i) && Digest(a0, b0, c0, d0, e0) == Rounds(h, m, i)
    modifies block
    ensures Ring(block[..], m, i + 5) && Digest(a, b, c, d, e) == Rounds(h, m, i + 5)
  {
    OneRound(h, m, i);
    OneRound(h, m, i + 1);
    OneRound(h, m, i + 2);
    OneRound(h, m, i + 3);
    OneRound(h, m, i + 4);
    hide W, Round, Rounds, Ring;
    a, b, c, d, e := a0, b0, c0, d0, e0;
    b, e := RoundMacro(block, m, a, b, c, d, e, i);
    a, d := RoundMacro(block, m, e, a, b, c, d, i + 1);
    e, c := RoundMacro(block, m, d, e, a, b, c, i + 2);
    d, b := RoundMacro(block, m, c, d, e, a, b, i + 3);
    c, a := RoundMacro(block, m, b, c, d, e, a, i + 4);
  }

  // What a uint64 that counts the blocks in n bytes holds.
  function BlockCount(n: nat): nat {
    n / BLOCK_BYTES % TWO64
  }

  lemma OneMoreBlock(n: nat)
    ensures (BlockCount(n) + 1) % TWO64 == BlockCount(n + BLOCK_BYTES)
  {
    assert (n + BLOCK_BYTES) / BLOCK_BYTES == n / BLOCK_BYTES + 1;
    SuccessorMod(n / BLOCK_BYTES);
  }

  lemma SuccessorMod(k: nat)
    ensures (k % TWO64 + 1) % TWO64 == (k + 1) % TWO64
  {
    var q, r := k / TWO64, k % TWO64;
    assert k + 1 == r + 1 + q * TWO64;
    ModPlusMultiple(r + 1, q);
  }

  // Padding.  The message is `done`, whole blocks, and `rest`, fewer than 64 bytes.

  function FilledUp(rest: seq<byte>): (r: seq<byte>)
    requires |rest| < BLOCK_BYTES
    ensures |r| == BLOCK_BYTES
  {
    rest + [0x80] + seq(BLOCK_BYTES - 1 - |rest|, _ => 0)
  }

  lemma ZerosAfter(done: nat, rest: nat)
    requires done % 64 == 0 && rest < BLOCK_BYTES
    ensures ZeroBytes(done + rest) == if rest <= 55 then 55 - rest else 119 - rest
  {
    assert (done + rest) % 64 == rest;
  }

  lemma PaddedTail(done: seq<byte>, rest: seq<byte>)
    requires |done| % 64 == 0 && |rest| < BLOCK_BYTES
    ensures var p := Padded(done + rest);
            p == if |rest| <= 55 then done + FilledUp(rest)[..56] else done + FilledUp(rest) + seq(56, _ => 0)
  {
    hide ZeroBytes;
    ZerosAfter(|done|, |rest|);
    assert |done + rest| == |done| + |rest|;
  }

  lemma WordsPrefix(s: seq<byte>, n: nat)
    requires |s| % 4 == 0 && 4 * n <= |s|
    ensures Words(s[..4 * n]) == Words(s)[..n]
  {
    hide WordOf;
  }

  // The length fits behind the rest: one last block.
  lemma LastBlockShort(done: seq<byte>, rest: seq<byte>)
    requires |done| % 64 == 0 && |rest| <= 55
    ensures var m := done + rest;
            && Padded(m)[..|Padded(m)| - 56] == done
            && LastBlock(m) == Words(FilledUp(rest))[..14] + LengthWords(m)
  {
    PaddedTail(done, rest);
    WordsPrefix(FilledUp(rest), 14);
    hide FilledUp, Padded, LengthWords, Words;
    var p := Padded(done + rest);
    assert p[..|p| - 56] == done && p[|p| - 56..] == FilledUp(rest)[..56];
  }

  // It does not: the filled-up rest is a block of its own, and the last one holds zeros and the length.
  lemma LastBlockLong(done: seq<byte>, rest: seq<byte>)
    requires |done| % 64 == 0 && 55 < |rest| < BLOCK_BYTES
    ensures var m := done + rest;
            && Padded(m)[..|Padded(m)| - 56] == done + FilledUp(rest)
            && LastBlock(m) == seq(14, _ => 0) + LengthWords(m)
  {
    PaddedTail(done, rest);
    hide FilledUp, Padded, LengthWords;
    var p := Padded(done + rest);
    assert p[..|p| - 56] == done + FilledUp(rest) && p[|p| - 56..] == seq(56, _ => 0);
    assert Words(seq(56, _ => 0)) == seq(14, _ => 0);
  }

  lemma BitCount(done: nat, rest: nat)
    requires done % 64 == 0
    ensures (BlockCount(done) * BLOCK_BYTES + rest) * 8 % TWO64 == 8 * (done + rest) % TWO64
  {
    var k := done / BLOCK_BYTES;
    var q := k / TWO64;
    assert BlockCount(done) == k - q * TWO64;
    assert 8 * (done + rest) == (BlockCount(done) * BLOCK_BYTES + rest) * 8 + 512 * q * TWO64;
    ModPlusMultiple((BlockCount(done) * BLOCK_BYTES + rest) * 8, 512 * q);
  }

  lemma ModPlusMultiple(x: nat, k: nat)
    ensures (x + k * TWO64) % TWO64 == x % TWO64
  {
  }

  class SHA1 {
    const digest: array<Word>
    var buffer: seq<byte>
    var transforms: nat          // uint64

    // The bytes given to update since the last reset.
    ghost var message: seq<byte>

    // Between two calls the buffer holds the bytes after the last whole block, fewer than 64, and the
    // digest is the hash of the blocks before them.
    ghost predicate Valid()
      reads this, digest
    {
      Filled() && |buffer| < BLOCK_BYTES
    }

    // Within a call the buffer may be full.
    ghost predicate Filled()
      reads this, digest
    {
      && digest.Length == 5
      && |buffer| <= BLOCK_BYTES
      && |buffer| <= |message| && (|message| - |buffer|) % BLOCK_BYTES == 0
      && buffer == message[|message| - |buffer|..]
      && Hashed() == HashBlocks(message[..|message| - |buffer|])
      && transforms == BlockCount(|message| - |buffer|)
    }

    ghost function Hashed(): Digest
      requires digest.Length == 5
      reads digest
    {
      Digest(digest[0], digest[1], digest[2], digest[3], digest[4])
    }

    method ResetDigest()
      requires digest.Length == 5
      modifies digest
      ensures Hashed() == H0
    {
      digest[0], digest[1], digest[2], digest[3], digest[4] :=
        0x67452301, 0xefcdab89, 0x98badcfe, 0x10325476, 0xc3d2e1f0;
    }

    method Reset()
      requires digest.Length == 5
      modifies this, digest
      ensures Valid() && message == []
    {
      assert HashBlocks([]) == H0 && BlockCount(0) == 0;
      hide HashBlocks, BlockCount, H0;
      ResetDigest();
      transforms := 0;
      buffer := [];
      message := [];
    }

    constructor ()
      ensures Valid() && message == [] && fresh(digest)
    {
      digest := new Word[5](_ => 0);
      new;
      Reset();
    }

    // The source writes its 80 macro calls out; the register names repeat every five.
    method Transform(block: array<Word>)
      requires digest.Length == 5 && block.Length == 16 && block != digest
      modifies this`transforms, digest, block
      ensures Hashed() == HashBlock(old(Hashed()), old(block[..]))
      ensures transforms == (old(transforms) + 1) % TWO64
    {
      hide W, Round, Ring, Add;
      var a, b, c, d, e := digest[0], digest[1], digest[2], digest[3], digest[4];
      ghost var m: Block := block[..];
      ghost var h := Hashed();
      RingStart(m);
      var i := 0;
      while i < 80
        invariant i <= 80 && i % 5 == 0
        invariant Ring(block[..], m, i)
        invariant Digest(a, b, c, d, e) == Rounds(h, m, i)
        invariant Hashed() == h && transforms == old(transforms)
      {
        a, b, c, d, e := FiveRounds(block, m, h, a, b, c, d, e, i);
        i := i + 5;
      }
      AddCommutes(h.a, a);
      AddCommutes(h.b, b);
      AddCommutes(h.c, c);
      AddCommutes(h.d, d);
      AddCommutes(h.e, e);
      hide Rounds;
      digest[0] := Add(digest[0], a);
      digest[1] := Add(digest[1], b);
      digest[2] := Add(digest[2], c);
      digest[3] := Add(digest[3], d);
      digest[4] := Add(digest[4], e);
      transforms := (transforms + 1) % TWO64;
    }

    method Update(data: seq<byte>)
      requires Valid()
      modifies this, digest
      ensures Valid() && message == old(message) + data
    {
      hide Filled;
      var got, position, good := Read(data, 0, BLOCK_BYTES - |buffer|);
      ghost var start := message;
      Refill(data, 0, got);
      while good
        invariant digest.Length == 5 && position <= |data|
        invariant good ==> |buffer| == BLOCK_BYTES
        invariant !good ==> |buffer| < BLOCK_BYTES && position == |data|
        invariant message == start + data[..position]
        invariant Filled()
        decreases |data| - position, good
      {
        TransformBuffer();
        ghost var from := position;
        got, position, good := Read(data, position, BLOCK_BYTES);
        TakeMore(start, data, from, position);
        buffer := [];
        Refill(data, from, got);
      }
      assert data[..position] == data;
    }

    method FillBuffer()
      requires |buffer| < BLOCK_BYTES
      modifies this`buffer
      ensures buffer == FilledUp(old(buffer))
    {
      buffer := buffer + [0x80];
      while |buffer| < BLOCK_BYTES
        invariant |old(buffer)| < |buffer| <= BLOCK_BYTES && buffer == FilledUp(old(buffer))[..|buffer|]
      {
        buffer := buffer + [0x00];
      }
    }

    // The block the filled buffer makes; if the length does not fit behind the rest, that block is
    // hashed first and its words but for the last two cleared.
    method SpillBlock(block: array<Word>, ghost done: seq<byte>, ghost rest: seq<byte>)
      requires digest.Length == 5 && block.Length == 16 && block != digest
      requires |done| % 64 == 0 && |rest| < BLOCK_BYTES
      requires Hashed() == HashBlocks(done) && block[..] == Words(FilledUp(rest)) && |rest| > 55
      modifies this`transforms, digest, block
      ensures Hashed() == HashBlocks(done + FilledUp(rest)) && block[..14] == seq(14, _ => 0)
    {
      AppendBlock(done, FilledUp(rest));
      hide HashBlocks, HashBlock, Words, FilledUp;
      Transform(block);
      ClearWords(block);
    }

    static method ClearWords(block: array<Word>)
      requires block.Length == 16
      modifies block
      ensures block[..14] == seq(14, _ => 0)
    {
      for i := 0 to 14
        invariant forall j | 0 <= j < i :: block[j] == 0
      {
        block[i] := 0;
      }
    }

    method TransformWithLength(block: array<Word>, totalBits: nat)
      requires digest.Length == 5 && block.Length == 16 && block != digest && totalBits < TWO64
      modifies this`transforms, digest, block
      ensures Hashed() == HashBlock(old(Hashed()), old(block[..14]) + [HighWord(totalBits), LowWord(totalBits)])
    {
      hide HashBlock, LowWord, HighWord;
      ghost var first := block[..14];
      block[15] := LowWord(totalBits);
      block[14] := HighWord(totalBits);
      assert block[..] == first + [HighWord(totalBits), LowWord(totalBits)];
      Transform(block);
    }

    // The digest of the message, which ends here: the padding makes its last one or two blocks.
    method Final() returns (result: string)
      requires Valid()
      modifies this, digest
      ensures Valid() && message == []
      ensures result == Hex(Sha1Spec.Sha1(old(message)))
    {
      hide HashBlocks, HashBlock, Words, FilledUp, Padded, LastBlock, BlockCount, LowWord, HighWord, HexWord;
      var totalBits := (transforms * BLOCK_BYTES + |buffer|) * 8 % TWO64;
      ghost var done, rest := message[..|message| - |buffer|], buffer;
      assert message == done + rest;
      BitCount(|done|, |rest|);
      assert totalBits == 8 * |message| % TWO64;
      var origSize := |buffer| + 1;
      FillBuffer();
      var block := new Word[16](_ => 0);
      BufferToBlock(buffer, block);
      if origSize > BLOCK_BYTES - 8 {
        SpillBlock(block, done, rest);
        LastBlockLong(done, rest);
      } else {
        LastBlockShort(done, rest);
      }
      TransformWithLength(block, totalBits);
      assert Hashed() == Sha1Spec.Sha1(message);
      result := HexWord(digest[0]) + HexWord(digest[1]) + HexWord(digest[2]) + HexWord(digest[3]) + HexWord(digest[4]);
      Reset();
    }

    // buffer += rest_of_buffer
    method Refill(ghost data: seq<byte>, ghost from: nat, got: seq<byte>)
      requires Filled() && |buffer| + |got| <= BLOCK_BYTES
      requires from + |got| <= |data| && got == data[from..from + |got|]
      modifies this`buffer, this`message
      ensures Filled() && buffer == old(buffer) + got && message == old(message) + got
    {
      message := message + got;
      buffer := buffer + got;
      assert message[..|message| - |buffer|] == old(message)[..|old(message)| - |old(buffer)|];
      assert message[|message| - |buffer|..] == buffer;
    }

    method TransformBuffer()
      requires Filled() && |buffer| == BLOCK_BYTES
      modifies this`transforms, this`buffer, digest
      ensures buffer == [] && Filled()
    {
      hide HashBlocks, HashBlock, Words, BlockCount;
      OneMoreBlock(|message| - 64);
      var block := new Word[16](_ => 0);
      BufferToBlock(buffer, block);
      ghost var done := message[..|message| - 64];
      assert message == done + buffer;
      AppendBlock(done, buffer);
      Transform(block);
      buffer := [];
      assert message[..|message|] == message;
    }
  }

  lemma TakeMore(start: seq<byte>, data: seq<byte>, from: nat, to: nat)
    requires from <= to <= |data|
    ensures start + data[..from] + data[from..to] == start + data[..to]
  {
    assert data[..from] + data[from..to] == data[..to];
  }

  lemma AppendBlock(done: seq<byte>, block: seq<byte>)
    requires |done| % 64 == 0 && |block| == 64
    ensures |done + block| % 64 == 0
    ensures HashBlocks(done + block) == HashBlock(HashBlocks(done), BlockOf(block))
  {
    hide HashBlock, BlockOf;
    var s := done + block;
    assert s[..|s| - 64] == done && s[|s| - 64..] == block;
  }

  // SHA1::read: up to `max` bytes from the stream, which stays good if it had that many.
  method Read(data: seq<byte>, position: nat, max: nat) returns (got: seq<byte>, position': nat, good: bool)
    requires position <= |data|
    ensures position <= position' <= |data| && got == data[position..position'] && |got| <= max
    ensures good <==> |got| == max
    ensures !good ==> position' == |data|
  {
    var n := if |data| - position < max then |data| - position else max;
    position' := position + n;
    got := data[position..position'];
    good := n == max;
  }

  // (b3 & 0xff) | (b2 & 0xff) << 8 | (b1 & 0xff) << 16 | (b0 & 0xff) << 24
  function PackBytes(b0: byte, b1: byte, b2: byte, b3: byte): Word {
    (b3 as Word) | ((b2 as Word) << 8) | ((b1 as Word) << 16) | ((b0 as Word) << 24)
  }

  lemma PackBytesIsWordOf(b0: byte, b1: byte, b2: byte, b3: byte)
    ensures PackBytes(b0, b1, b2, b3) == WordOf(b0, b1, b2, b3)
  {
  }

  method BufferToBlock(buffer: seq<byte>, block: array<Word>)
    requires |buffer| == BLOCK_BYTES && block.Length == 16
    modifies block
    ensures block[..] == Words(buffer)
  {
    hide PackBytes, WordOf;
    for i := 0 to 16
      invariant forall j | 0 <= j < i :: block[j] == Words(buffer)[j]
    {
      PackBytesIsWordOf(buffer[4 * i], buffer[4 * i + 1], buffer[4 * i + 2], buffer[4 * i + 3]);
      block[i] := PackBytes(buffer[4 * i], buffer[4 * i + 1], buffer[4 * i + 2], buffer[4 * i + 3]);
    }
  }

  function Concat(pieces: seq<seq<byte>>): seq<byte> {
    if pieces == [] then [] else Concat(pieces[..|pieces| - 1]) + pieces[|pieces| - 1]
  }

  // Any way of splitting a message over calls of update gives its FIPS 180-4 digest.
  method HashPieces(pieces: seq<seq<byte>>) returns (result: string)
    ensures result == Hex(Sha1Spec.Sha1(Concat(pieces)))
  {
    hide Hex, Sha1Spec.Sha1;
    var checksum := new SHA1();
    for i := 0 to |pieces|
      invariant fresh(checksum) && fresh(checksum.digest) && checksum.Valid()
      invariant checksum.message == Concat(pieces[..i])
    {
      checksum.Update(pieces[i]);
      assert pieces[..i + 1][..i] == pieces[..i];
    }
    assert pieces[..|pieces|] == pieces;
    result := checksum.Final();
  }
}
