/** SHA-1 as FIPS 180-4 defines it (sections 4.1.1, 4.2.1, 5.1.1, 5.2.1, 5.3.1 and 6.1.2). */
module Sha1Spec {
  type byte = bv8
  type Word = bv32
  type Block = b: seq<Word> | |b| == 16 witness seq(16, _ => 0)

  // The five hash words, and the five working variables.
  datatype Digest = Digest(a: Word, b: Word, c: Word, d: Word, e: Word)

  // 2.2.2: addition modulo 2^32
  function Add(x: Word, y: Word): Word { x + y }

  function Sum(p: Word, q: Word, r: Word, s: Word, t: Word): Word { p + q + r + s + t }

  // 4.1.1
  function Ch(x: Word, y: Word, z: Word): Word { (x & y) ^ (!x & z) }

  function Parity(x: Word, y: Word, z: Word): Word { x ^ y ^ z }

  function Maj(x: Word, y: Word, z: Word): Word { (x & y) ^ (x & z) ^ (y & z) }

  function F(t: nat, x: Word, y: Word, z: Word): Word {
    if t < 20 then Ch(x, y, z) else if t < 40 then Parity(x, y, z) else if t < 60 then Maj(x, y, z) else Parity(x, y, z)
  }

  // 4.2.1
  function K(t: nat): Word {
    if t < 20 then 0x5a827999 else if t < 40 then 0x6ed9eba1 else if t < 60 then 0x8f1bbcdc else 0xca62c1d6
  }

  function Rotl(x: Word, n: nat): Word
    requires n < 32
  {
    x.RotateLeft(n)
  }

  // 6.1.2, step 1: the 80-word message schedule
  function W(m: Block, t: nat): Word {
    if t < 16 then m[t] else Rotl(W(m, t - 3) ^ W(m, t - 8) ^ W(m, t - 14) ^ W(m, t - 16), 1)
  }

  // 6.1.2, step 3
  function Round(v: Digest, w: Word, t: nat): Digest {
    Digest(Sum(Rotl(v.a, 5), F(t, v.b, v.c, v.d), v.e, K(t), w), v.a, Rotl(v.b, 30), v.c, v.d)
  }

  function Rounds(h: Digest, m: Block, t: nat): Digest {
    if t == 0 then h else Round(Rounds(h, m, t - 1), W(m, t - 1), t - 1)
  }

  // 6.1.2, steps 2 to 4
  function HashBlock(h: Digest, m: Block): Digest {
    var v := Rounds(h, m, 80);
    Digest(Add(v.a, h.a), Add(v.b, h.b), Add(v.c, h.c), Add(v.d, h.d), Add(v.e, h.e))
  }

  // 5.3.1
  const H0 := Digest(0x67452301, 0xefcdab89, 0x98badcfe, 0x10325476, 0xc3d2e1f0)

  // 5.2.1: four bytes are one word, most significant first
  function WordOf(b0: byte, b1: byte, b2: byte, b3: byte): Word {
    0x100_0000 * (b0 as Word) + 0x1_0000 * (b1 as Word) + 0x100 * (b2 as Word) + (b3 as Word)
  }

  function Words(s: seq<byte>): (r: seq<Word>)
    requires |s| % 4 == 0
    ensures |r| == |s| / 4
  {
    seq(|s| / 4, i requires 0 <= i < |s| / 4 => WordOf(s[4 * i], s[4 * i + 1], s[4 * i + 2], s[4 * i + 3]))
  }

  function BlockOf(s: seq<byte>): Block
    requires |s| == 64
  {
    Words(s)
  }

  // H(i) after the blocks of s
  function HashBlocks(s: seq<byte>): Digest
    requires |s| % 64 == 0
  {
    if s == [] then H0 else HashBlock(HashBlocks(s[..|s| - 64]), BlockOf(s[|s| - 64..]))
  }

  // 5.1.1: a one bit, the least number of zero bits that leaves 64 bits in the last block ...
  function ZeroBytes(length: nat): (n: nat)
    ensures n < 64 && (length + 1 + n) % 64 == 56
  {
    (119 - length % 64) % 64
  }

  function Padded(message: seq<byte>): (r: seq<byte>)
    ensures |r| % 64 == 56
  {
    message + [0x80] + seq(ZeroBytes(|message|), _ => 0)
  }

  function HighWord(bits: nat): Word
    requires bits < 0x1_0000_0000_0000_0000
  {
    (bits / 0x1_0000_0000) as Word
  }

  function LowWord(bits: nat): Word {
    (bits % 0x1_0000_0000) as Word
  }

  // They are its upper and its lower half.
  lemma LengthSplits(upper: nat, lower: nat)
    requires upper < 0x1_0000_0000 && lower < 0x1_0000_0000
    ensures HighWord(upper * 0x1_0000_0000 + lower) == upper as Word
    ensures LowWord(upper * 0x1_0000_0000 + lower) == lower as Word
  {
    HalvesOf(upper, lower);
  }

  lemma HalvesOf(upper: nat, lower: nat)
    requires lower < 0x1_0000_0000
    ensures (upper * 0x1_0000_0000 + lower) / 0x1_0000_0000 == upper
    ensures (upper * 0x1_0000_0000 + lower) % 0x1_0000_0000 == lower
  {
  }

  // ... and those 64 bits the length of the message in bits, as two words.
  function LengthWords(message: seq<byte>): (r: seq<Word>)
    ensures |r| == 2
  {
    var bits := (8 * |message|) % 0x1_0000_0000_0000_0000;
    [HighWord(bits), LowWord(bits)]
  }

  function LastBlock(message: seq<byte>): Block {
    var p := Padded(message);
    Words(p[|p| - 56..]) + LengthWords(message)
  }

  function Sha1(message: seq<byte>): Digest {
    var p := Padded(message);
    HashBlock(HashBlocks(p[..|p| - 56]), LastBlock(message))
  }

  function HexDigit(n: bv32): char {
    if n < 10 then ('0' as int + n as int) as char else if n < 16 then ('a' as int + n as int - 10) as char else '?'
  }

  function HexWord(w: Word): string {
    [ HexDigit((w >> 28) & 15), HexDigit((w >> 24) & 15), HexDigit((w >> 20) & 15), HexDigit((w >> 16) & 15),
      HexDigit((w >> 12) & 15), HexDigit((w >> 8) & 15), HexDigit((w >> 4) & 15), HexDigit(w & 15) ]
  }

  function Hex(h: Digest): string {
    HexWord(h.a) + HexWord(h.b) + HexWord(h.c) + HexWord(h.d) + HexWord(h.e)
  }

  function DigitValue(c: char): bv32 {
    if '0' <= c <= '9' then (c as int - '0' as int) as bv32
    else if 'a' <= c <= 'f' then (c as int - 'a' as int + 10) as bv32
    else 0
  }

  lemma DigitReadsBack(n: bv32)
    requires n < 16
    ensures DigitValue(HexDigit(n)) == n
  {
  }

  // Eight nibbles as one word, the most significant first
  function Join(a: bv32, b: bv32, c: bv32, d: bv32, e: bv32, f: bv32, g: bv32, h: bv32): bv32 {
    (a << 28) | (b << 24) | (c << 20) | (d << 16) | (e << 12) | (f << 8) | (g << 4) | h
  }

  // The number that eight digits spell
  function ReadHex(s: string): bv32
    requires |s| == 8
  {
    Join(DigitValue(s[0]), DigitValue(s[1]), DigitValue(s[2]), DigitValue(s[3]),
         DigitValue(s[4]), DigitValue(s[5]), DigitValue(s[6]), DigitValue(s[7]))
  }

  lemma Nibbles(w: bv32)
    ensures Join((w >> 28) & 15, (w >> 24) & 15, (w >> 20) & 15, (w >> 16) & 15,
                 (w >> 12) & 15, (w >> 8) & 15, (w >> 4) & 15, w & 15) == w
  {
  }

  lemma BelowSixteen(w: bv32)
    ensures w & 15 < 16
  {
  }

  lemma SpelledBack(a: bv32, b: bv32, c: bv32, d: bv32, e: bv32, f: bv32, g: bv32, h: bv32, s: string)
    requires a < 16 && b < 16 && c < 16 && d < 16 && e < 16 && f < 16 && g < 16 && h < 16
    requires s == [HexDigit(a), HexDigit(b), HexDigit(c), HexDigit(d),
                   HexDigit(e), HexDigit(f), HexDigit(g), HexDigit(h)]
    ensures |s| == 8 && ReadHex(s) == Join(a, b, c, d, e, f, g, h)
  {
    DigitReadsBack(a);
    DigitReadsBack(b);
    DigitReadsBack(c);
    DigitReadsBack(d);
    DigitReadsBack(e);
    DigitReadsBack(f);
    DigitReadsBack(g);
    DigitReadsBack(h);
    hide HexDigit, DigitValue, Join;
  }

  lemma WordReadsBack(w: bv32)
    ensures |HexWord(w)| == 8 && ReadHex(HexWord(w)) == w
  {
    hide HexDigit, DigitValue, Join, ReadHex;
    BelowSixteen(w >> 28);
    BelowSixteen(w >> 24);
    BelowSixteen(w >> 20);
    BelowSixteen(w >> 16);
    BelowSixteen(w >> 12);
    BelowSixteen(w >> 8);
    BelowSixteen(w >> 4);
    BelowSixteen(w);
    SpelledBack((w >> 28) & 15, (w >> 24) & 15, (w >> 20) & 15, (w >> 16) & 15,
                (w >> 12) & 15, (w >> 8) & 15, (w >> 4) & 15, w & 15, HexWord(w));
    Nibbles(w);
  }

  // The forty digits of a digest read back as its five words.
  lemma HexReadsBack(h: Digest)
    ensures var s := Hex(h);
            && |s| == 40
            && Digest(ReadHex(s[..8]), ReadHex(s[8..16]), ReadHex(s[16..24]), ReadHex(s[24..32]), ReadHex(s[32..])) == h
  {
    WordReadsBack(h.a);
    WordReadsBack(h.b);
    WordReadsBack(h.c);
    WordReadsBack(h.d);
    WordReadsBack(h.e);
    hide HexWord, ReadHex;
    var s := Hex(h);
    assert s[..8] == HexWord(h.a) && s[8..16] == HexWord(h.b) && s[16..24] == HexWord(h.c);
    assert s[24..32] == HexWord(h.d) && s[32..] == HexWord(h.e);
  }
}
