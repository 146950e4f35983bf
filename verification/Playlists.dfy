/** The playlist variable overrides of src/engine/playlists.cpp: the table, and its bit stream codec. */
module Playlists {
  import opened Bytes

  const MAX_PLAYLIST_VAR_OVERRIDES := 255
  const NAME_SIZE := 128
  const VALUE_SIZE := 64

  // Two strings that fit their buffers: C strings in the table, raw on the wire.
  datatype Strings = Strings(name: bytes, value: bytes)

  type Entry = e: Strings | |e.name| < NAME_SIZE && |e.value| < VALUE_SIZE witness Strings([], [])

  // C strings

  predicate IsCString(s: bytes) {
    forall i | 0 <= i < |s| :: s[i] != 0
  }

  // What strlen sees of a buffer.
  function CString(raw: bytes): (r: bytes)
    ensures IsCString(r) && |r| <= |raw|
    ensures IsCString(raw) ==> r == raw
  {
    if raw == [] || raw[0] == 0 then []
    else
      assert IsCString(raw) ==> IsCString(raw[1..]);
      [raw[0]] + CString(raw[1..])
  }

  function LowerByte(c: uint8): uint8 {
    if 0x41 <= c <= 0x5A then c + 0x20 else c
  }

  // Names that V_stricmp calls equal fold to the same string.
  function Fold(s: bytes): (r: bytes)
    ensures |r| == |s|
  {
    seq(|s|, i requires 0 <= i < |s| => LowerByte(s[i]))
  }

  // The same byte, or the two cases of one letter
  predicate Match(c: int, d: int) {
    c == d || ('A' as int <= c <= 'Z' as int && d == c + 32) || ('A' as int <= d <= 'Z' as int && c == d + 32)
  }

  lemma BytesMatchIff(c: uint8, d: uint8)
    ensures LowerByte(c) == LowerByte(d) <==> Match(c, d)
  {
  }

  // Names are the same if they match byte for byte.
  lemma NamesMatchIff(a: bytes, b: bytes)
    ensures Fold(a) == Fold(b) <==> |a| == |b| && forall i | 0 <= i < |a| :: Match(a[i], b[i])
  {
    hide LowerByte, Match;
    forall i | 0 <= i < |a| && i < |b| ensures Fold(a)[i] == Fold(b)[i] <==> Match(a[i], b[i]) {
      BytesMatchIff(a[i], b[i]);
    }
    if Fold(a) == Fold(b) {
      assert |Fold(a)| == |Fold(b)|;
    }
  }

  ghost predicate TableOk(entries: seq<Entry>) {
    && |entries| <= MAX_PLAYLIST_VAR_OVERRIDES
    && forall i | 0 <= i < |entries| :: IsCString(entries[i].name) && IsCString(entries[i].value)
  }

  ghost predicate DistinctNames(entries: seq<Entry>) {
    forall i, j | 0 <= i < j < |entries| :: Fold(entries[i].name) != Fold(entries[j].name)
  }

  // The first entry with this name, or the number of entries.
  function FindIndex(entries: seq<Entry>, name: bytes): (i: nat)
    ensures i <= |entries|
    ensures i < |entries| ==> Fold(entries[i].name) == Fold(name)
    ensures forall j | 0 <= j < i :: Fold(entries[j].name) != Fold(name)
  {
    if entries == [] then 0
    else if Fold(entries[0].name) == Fold(name) then 0
    else 1 + FindIndex(entries[1..], name)
  }

  lemma FindIndexUnique(entries: seq<Entry>, name: bytes, i: nat)
    requires i <= |entries| && (i < |entries| ==> Fold(entries[i].name) == Fold(name))
    requires forall j | 0 <= j < i :: Fold(entries[j].name) != Fold(name)
    ensures FindIndex(entries, name) == i
  {
  }

  function Lookup(entries: seq<Entry>, name: bytes): Option<bytes> {
    var i := FindIndex(entries, name);
    if i < |entries| then Some(entries[i].value) else None
  }

  // PlaylistVarOverrides::Set on a table; None when it is refused.
  function SetEntry(entries: seq<Entry>, name: bytes, value: bytes): Option<seq<Entry>> {
    if |name| >= NAME_SIZE || |value| >= VALUE_SIZE then None
    else
      var i := FindIndex(entries, name);
      if i < |entries| then Some(entries[i := entries[i].(value := value)])
      else if |entries| == MAX_PLAYLIST_VAR_OVERRIDES then None
      else Some(entries + [Strings(name, value)])
  }

  // Set is update of a map with case-insensitive keys: the name it is given looks up to the value, any
  // other name to what it did, and names stay distinct.
  lemma SetIsMapUpdate(entries: seq<Entry>, name: bytes, value: bytes, other: bytes)
    requires TableOk(entries) && IsCString(name) && IsCString(value)
    ensures SetEntry(entries, name, value).None? <==>
              |name| >= 128 || |value| >= 64 || (Lookup(entries, name).None? && |entries| == 255)
    ensures SetEntry(entries, name, value).Some? ==>
              var t := SetEntry(entries, name, value).value;
              && TableOk(t)
              && |t| == |entries| + (if Lookup(entries, name).Some? then 0 else 1)
              && (forall i | 0 <= i < |entries| :: t[i].name == entries[i].name)
              && (|t| > |entries| ==> t[|entries|] == Strings(name, value))
              && (DistinctNames(entries) ==> DistinctNames(t))
              && Lookup(t, other) == if Fold(other) == Fold(name) then Some(value) else Lookup(entries, other)
  {
    if SetEntry(entries, name, value).Some? {
      hide Fold;
      var t := SetEntry(entries, name, value).value;
      var i := FindIndex(entries, name);
      if Fold(other) == Fold(name) {
        FindIndexUnique(t, other, i);
      } else {
        var j := FindIndex(entries, other);
        FindIndexUnique(t, other, if j < |entries| then j else |t|);
      }
    }
  }

  // Bits, least significant first

  function ToBits(x: nat, n: nat): (r: seq<bool>)
    ensures |r| == n
  {
    if n == 0 then [] else [x % 2 == 1] + ToBits(x / 2, n - 1)
  }

  function FromBits(b: seq<bool>): nat {
    if b == [] then 0 else (if b[0] then 1 else 0) + 2 * FromBits(b[1..])
  }

  lemma {:induction false} FromToBits(x: nat, n: nat)
    requires x < Pow2(n)
    ensures FromBits(ToBits(x, n)) == x
  {
    if n > 0 {
      FromToBits(x / 2, n - 1);
      assert ToBits(x, n)[1..] == ToBits(x / 2, n - 1);
    }
  }

  lemma {:induction false} ToFromBits(b: seq<bool>)
    ensures FromBits(b) < Pow2(|b|) && ToBits(FromBits(b), |b|) == b
  {
    if b != [] {
      ToFromBits(b[1..]);
    }
  }

  lemma Pow2Of8()
    ensures Pow2(8) == 256
  {
    assert Pow2(4) == 16;
    assert Pow2(6) == 64;
  }

  // bf_write::WriteByte and bf_read::ReadUBitLong(8)

  function ByteBits(x: uint8): (r: seq<bool>)
    ensures |r| == 8
  {
    ToBits(x, 8)
  }

  function BitsByte(b: seq<bool>): uint8
    requires |b| == 8
  {
    Pow2Of8();
    ToFromBits(b);
    FromBits(b)
  }

  function Weight(bit: bool, weight: nat): nat {
    if bit then weight else 0
  }

  // The bits of a byte are written least significant first.
  lemma BitWeights(x: uint8)
    ensures var b := ByteBits(x);
            x == Weight(b[0], 1) + Weight(b[1], 2) + Weight(b[2], 4) + Weight(b[3], 8)
                 + Weight(b[4], 16) + Weight(b[5], 32) + Weight(b[6], 64) + Weight(b[7], 128)
  {
    ByteRoundTrip(x);
    FromEight(ByteBits(x));
  }

  lemma FromEight(b: seq<bool>)
    requires |b| == 8
    ensures FromBits(b) == Weight(b[0], 1) + Weight(b[1], 2) + Weight(b[2], 4) + Weight(b[3], 8)
                           + Weight(b[4], 16) + Weight(b[5], 32) + Weight(b[6], 64) + Weight(b[7], 128)
  {
    FromFour(b[4..]);
    assert FromBits(b[3..]) == Weight(b[3], 1) + 2 * FromBits(b[4..]);
    assert FromBits(b[2..]) == Weight(b[2], 1) + 2 * FromBits(b[3..]);
    assert FromBits(b[1..]) == Weight(b[1], 1) + 2 * FromBits(b[2..]);
  }

  lemma FromFour(b: seq<bool>)
    requires |b| == 4
    ensures FromBits(b) == Weight(b[0], 1) + Weight(b[1], 2) + Weight(b[2], 4) + Weight(b[3], 8)
  {
    assert FromBits(b[3..]) == Weight(b[3], 1);
    assert FromBits(b[2..]) == Weight(b[2], 1) + 2 * FromBits(b[3..]);
    assert FromBits(b[1..]) == Weight(b[1], 1) + 2 * FromBits(b[2..]);
  }

  lemma ByteRoundTrip(x: uint8)
    ensures BitsByte(ByteBits(x)) == x
  {
    Pow2Of8();
    FromToBits(x, 8);
  }

  lemma BitsRoundTrip(b: seq<bool>)
    requires |b| == 8
    ensures ByteBits(BitsByte(b)) == b
  {
    ToFromBits(b);
  }

  // WriteBytes and ReadBytes

  function BytesBits(s: bytes): (r: seq<bool>)
    ensures |r| == 8 * |s|
  {
    if s == [] then [] else ByteBits(s[0]) + BytesBits(s[1..])
  }

  function BitsBytes(b: seq<bool>): (r: bytes)
    requires |b| % 8 == 0
    ensures |r| == |b| / 8
  {
    if b == [] then [] else [BitsByte(b[..8])] + BitsBytes(b[8..])
  }

  lemma {:induction false} BytesRoundTrip(s: bytes)
    ensures BitsBytes(BytesBits(s)) == s
  {
    if s != [] {
      hide ByteBits, BitsByte;
      ByteRoundTrip(s[0]);
      BytesRoundTrip(s[1..]);
      assert BytesBits(s)[..8] == ByteBits(s[0]) && BytesBits(s)[8..] == BytesBits(s[1..]);
    }
  }

  lemma {:induction false} BitsBytesRoundTrip(b: seq<bool>)
    requires |b| % 8 == 0
    ensures BytesBits(BitsBytes(b)) == b
  {
    if b != [] {
      hide ByteBits, BitsByte;
      BitsRoundTrip(b[..8]);
      BitsBytesRoundTrip(b[8..]);
    }
  }

  // The wire format: a count, then each name and value as a length and that many bytes

  function EncodeString(s: bytes): seq<bool>
    requires |s| < 0x100
  {
    ByteBits(|s|) + BytesBits(s)
  }

  function EncodeEntry(e: Entry): seq<bool>
  {
    EncodeString(e.name) + EncodeString(e.value)
  }

  function EncodeEntries(entries: seq<Entry>): seq<bool>
  {
    if entries == [] then []
    else
      EncodeEntry(entries[0]) + EncodeEntries(entries[1..])
  }

  function Encode(entries: seq<Entry>): seq<bool>
    requires |entries| <= MAX_PLAYLIST_VAR_OVERRIDES
  {
    ByteBits(|entries|) + EncodeEntries(entries)
  }

  // A decoded value and the bits after it
  datatype Decoded<+T> = Decoded(value: T, rest: seq<bool>)

  // Playlist_ReadOverrideString
  function DecodeString(b: seq<bool>, capacity: nat): (r: Option<Decoded<bytes>>)
    ensures r.Some? ==> |r.value.value| < capacity && |r.value.rest| < |b|
  {
    if |b| < 8 then None
    else
      var length := BitsByte(b[..8]);
      if length >= capacity || |b| - 8 < length * 8 then None
      else Some(Decoded(BitsBytes(b[8..8 + 8 * length]), b[8 + 8 * length..]))
  }

  function DecodeEntry(b: seq<bool>): Option<Decoded<Entry>>
  {
    match DecodeString(b, NAME_SIZE)
    case None => None
    case Some(name) =>
      match DecodeString(name.rest, VALUE_SIZE)
      case None => None
      case Some(value) => Some(Decoded(Strings(name.value, value.value), value.rest))
  }

  function DecodeEntries(b: seq<bool>, count: nat): (r: Option<Decoded<seq<Entry>>>)
    ensures r.Some? ==> |r.value.value| == count
  {
    if count == 0 then Some(Decoded([], b))
    else
      match DecodeEntry(b)
      case None => None
      case Some(e) =>
        match DecodeEntries(e.rest, count - 1)
        case None => None
        case Some(more) => Some(Decoded([e.value] + more.value, more.rest))
  }

  // The raw strings of a message of exactly these bits.
  function Decode(b: seq<bool>): (r: Option<seq<Entry>>)
    ensures r.Some? ==> |r.value| <= MAX_PLAYLIST_VAR_OVERRIDES
  {
    if |b| < 8 then None
    else
      match DecodeEntries(b[8..], BitsByte(b[..8]))
      case None => None
      case Some(d) => if d.rest == [] then Some(d.value) else None
  }

  lemma DecodeEncodeString(s: bytes, rest: seq<bool>, capacity: nat)
    requires |s| < capacity <= 0x100
    ensures DecodeString(EncodeString(s) + rest, capacity) == Some(Decoded(s, rest))
  {
    ByteRoundTrip(|s|);
    BytesRoundTrip(s);
    hide ByteBits, BitsByte, BytesBits, BitsBytes;
    var b := EncodeString(s) + rest;
    assert b[..8] == ByteBits(|s|) && b[8..8 + 8 * |s|] == BytesBits(s) && b[8 + 8 * |s|..] == rest;
  }

  lemma EncodeDecodeString(b: seq<bool>, capacity: nat)
    requires capacity <= 0x100 && DecodeString(b, capacity).Some?
    ensures var d := DecodeString(b, capacity).value; EncodeString(d.value) + d.rest == b
  {
    var length: nat := BitsByte(b[..8]);
    BitsRoundTrip(b[..8]);
    BitsBytesRoundTrip(b[8..8 + 8 * length]);
    hide ByteBits, BitsByte, BytesBits, BitsBytes;
  }

  lemma DecodeEncodeEntry(e: Entry, rest: seq<bool>)
    ensures DecodeEntry(EncodeEntry(e) + rest) == Some(Decoded(e, rest))
  {
    hide EncodeString, DecodeString;
    assert EncodeEntry(e) + rest == EncodeString(e.name) + (EncodeString(e.value) + rest);
    DecodeEncodeString(e.name, EncodeString(e.value) + rest, NAME_SIZE);
    DecodeEncodeString(e.value, rest, VALUE_SIZE);
  }

  lemma EncodeDecodeEntry(b: seq<bool>)
    requires DecodeEntry(b).Some?
    ensures var d := DecodeEntry(b).value; EncodeEntry(d.value) + d.rest == b
  {
    hide EncodeString, DecodeString;
    EncodeDecodeString(b, NAME_SIZE);
    var name := DecodeString(b, NAME_SIZE).value;
    EncodeDecodeString(name.rest, VALUE_SIZE);
    var value := DecodeString(name.rest, VALUE_SIZE).value;
    assert EncodeString(name.value) + EncodeString(value.value) + value.rest
        == EncodeString(name.value) + (EncodeString(value.value) + value.rest);
  }

  lemma DecodeOneMore(b: seq<bool>, count: nat, e: Decoded<Entry>, more: Decoded<seq<Entry>>)
    requires count > 0 && DecodeEntry(b) == Some(e) && DecodeEntries(e.rest, count - 1) == Some(more)
    ensures DecodeEntries(b, count) == Some(Decoded([e.value] + more.value, more.rest))
  {
    hide DecodeEntry;
  }

  lemma EncodeOneMore(e: Entry, entries: seq<Entry>, rest: seq<bool>)
    ensures EncodeEntries([e] + entries) + rest == EncodeEntry(e) + (EncodeEntries(entries) + rest)
  {
    hide EncodeEntry;
    assert ([e] + entries)[1..] == entries;
  }

  lemma DecodeEncodeOneMore(e: Entry, entries: seq<Entry>, rest: seq<bool>)
    requires DecodeEntries(EncodeEntries(entries) + rest, |entries|) == Some(Decoded(entries, rest))
    ensures DecodeEntries(EncodeEntries([e] + entries) + rest, 1 + |entries|) == Some(Decoded([e] + entries, rest))
  {
    hide EncodeEntry, DecodeEntry, EncodeEntries, DecodeEntries;
    var more := EncodeEntries(entries) + rest;
    DecodeEncodeEntry(e, more);
    EncodeOneMore(e, entries, rest);
    DecodeOneMore(EncodeEntry(e) + more, 1 + |entries|, Decoded(e, more), Decoded(entries, rest));
  }

  lemma DecodeEncodeNone(rest: seq<bool>)
    ensures DecodeEntries(EncodeEntries([]) + rest, 0) == Some(Decoded([], rest))
  {
    assert EncodeEntries([]) + rest == rest;
  }

  lemma {:induction false} DecodeEncodeEntries(entries: seq<Entry>, rest: seq<bool>)
    ensures DecodeEntries(EncodeEntries(entries) + rest, |entries|) == Some(Decoded(entries, rest))
  {
    hide EncodeEntries, DecodeEntries;
    if entries == [] {
      DecodeEncodeNone(rest);
    } else {
      DecodeEncodeEntries(entries[1..], rest);
      DecodeEncodeOneMore(entries[0], entries[1..], rest);
      assert [entries[0]] + entries[1..] == entries;
    }
  }

  lemma {:induction false} EncodeDecodeEntries(b: seq<bool>, count: nat)
    requires DecodeEntries(b, count).Some?
    ensures var d := DecodeEntries(b, count).value; EncodeEntries(d.value) + d.rest == b
  {
    if count > 0 {
      hide EncodeEntry, DecodeEntry, EncodeEntries;
      var e := DecodeEntry(b).value;
      EncodeDecodeEntry(b);
      EncodeDecodeEntries(e.rest, count - 1);
      var more := DecodeEntries(e.rest, count - 1).value;
      EncodeOneMore(e.value, more.value, more.rest);
    } else {
      assert EncodeEntries([]) + b == b;
    }
  }

  // The codec is a bijection between tables of fitting strings and the messages it accepts.
  lemma CodecRoundTrip(entries: seq<Entry>)
    requires |entries| <= MAX_PLAYLIST_VAR_OVERRIDES
    ensures Decode(Encode(entries)) == Some(entries)
  {
    ByteRoundTrip(|entries|);
    DecodeEncodeEntries(entries, []);
    hide ByteBits, BitsByte, EncodeEntries;
    assert Encode(entries)[..8] == ByteBits(|entries|) && Encode(entries)[8..] == EncodeEntries(entries) + [];
  }

  lemma OnlyEncodingsDecode(b: seq<bool>)
    requires Decode(b).Some?
    ensures Encode(Decode(b).value) == b
  {
    BitsRoundTrip(b[..8]);
    EncodeDecodeEntries(b[8..], BitsByte(b[..8]));
    hide ByteBits, BitsByte, EncodeEntries;
  }

  // The writes of one entry, in order.
  lemma EncodeWrites(entries: seq<Entry>, i: nat)
    requires i < |entries|
    ensures var e := entries[i];
            EncodeEntries(entries[i..])
            == EncodeEntry(e) + EncodeEntries(entries[i + 1..])
  {
    hide EncodeEntry;
    assert entries[i..][1..] == entries[i + 1..];
  }

  lemma EncodeNone()
    ensures EncodeEntries([]) == []
  {
  }

  lemma EncodedAtLeastCount(entries: seq<Entry>)
    requires |entries| <= MAX_PLAYLIST_VAR_OVERRIDES
    ensures |Encode(entries)| >= 8
  {
  }

  lemma EncodedEntrySize(e: Entry)
    ensures |EncodeEntry(e)| <= 8 * (NAME_SIZE + VALUE_SIZE)
  {
    hide ByteBits, BytesBits;
  }

  lemma {:induction false} EncodedSize(entries: seq<Entry>)
    ensures |EncodeEntries(entries)| <= 8 * 192 * |entries|
  {
    if entries != [] {
      hide EncodeEntry;
      EncodedEntrySize(entries[0]);
      EncodedSize(entries[1..]);
    }
  }

  // A written table never outgrows the static buffer it is written to.
  lemma EncodingFitsBuffer(entries: seq<Entry>)
    requires TableOk(entries)
    ensures |Encode(entries)| <= 8 * (1 + 255 * 192)
  {
    EncodedSize(entries);
  }

  // What the table holds of raw strings: each up to its first NUL.
  function AsCStrings(raw: seq<Entry>): (r: seq<Entry>)
    ensures |r| == |raw|
  {
    seq(|raw|, i requires 0 <= i < |raw| => Strings(CString(raw[i].name), CString(raw[i].value)))
  }

  lemma AsCStringsOk(raw: seq<Entry>)
    requires |raw| <= MAX_PLAYLIST_VAR_OVERRIDES
    ensures TableOk(AsCStrings(raw))
  {
    hide CString;
  }

  lemma CStringsUnchanged(entries: seq<Entry>)
    requires TableOk(entries)
    ensures AsCStrings(entries) == entries
  {
    hide CString;
  }

  // Any number of Set calls, refused ones leaving the table alone.
  function ApplySets(entries: seq<Entry>, calls: seq<Strings>): seq<Entry>
    decreases |calls|
  {
    if calls == [] then entries
    else
      var t := SetEntry(entries, calls[0].name, calls[0].value);
      ApplySets(if t.Some? then t.value else entries, calls[1..])
  }

  // Tables grown by Set keep their names distinct and survive the wire unchanged.
  lemma {:induction false} SetsSurviveTransfer(entries: seq<Entry>, calls: seq<Strings>)
    requires TableOk(entries) && DistinctNames(entries)
    requires forall i | 0 <= i < |calls| :: IsCString(calls[i].name) && IsCString(calls[i].value)
    ensures var t := ApplySets(entries, calls);
            && TableOk(t) && DistinctNames(t)
            && |Encode(t)| <= 8 * (1 + 255 * 192)
            && Decode(Encode(t)) == Some(t) && AsCStrings(t) == t
    decreases |calls|
  {
    if calls == [] {
      EncodingFitsBuffer(entries);
      CodecRoundTrip(entries);
      CStringsUnchanged(entries);
    } else {
      SetIsMapUpdate(entries, calls[0].name, calls[0].value, []);
      hide SetEntry, Lookup, Encode, Decode, AsCStrings, DistinctNames, IsCString;
      var t := SetEntry(entries, calls[0].name, calls[0].value);
      SetsSurviveTransfer(if t.Some? then t.value else entries, calls[1..]);
    }
  }

  // Names a received table cannot tell apart: alike, ignoring case, up to the first NUL or the end of each.
  ghost predicate AlikeUpToNul(a: bytes, b: bytes) {
    exists n: nat | n <= |a| && n <= |b| :: EndsAt(a, n) && EndsAt(b, n) && AlikeBefore(a, b, n)
  }

  predicate EndsAt(s: bytes, n: nat) {
    n == |s| || (n < |s| && s[n] == 0)
  }

  predicate AlikeBefore(a: bytes, b: bytes, n: nat)
    requires n <= |a| && n <= |b|
  {
    forall k | 0 <= k < n :: a[k] != 0 && b[k] != 0 && LowerByte(a[k]) == LowerByte(b[k])
  }

  lemma {:induction false} CStringIs(raw: bytes)
    ensures var c := CString(raw);
            EndsAt(raw, |c|) && forall k | 0 <= k < |c| :: c[k] == raw[k] != 0
  {
    if raw != [] && raw[0] != 0 {
      CStringIs(raw[1..]);
    }
  }

  lemma AlikeIff(a: bytes, b: bytes)
    ensures Fold(CString(a)) == Fold(CString(b)) <==> AlikeUpToNul(a, b)
  {
    var c, d := CString(a), CString(b);
    CStringIs(a);
    CStringIs(b);
    hide CString;
    if Fold(c) == Fold(d) {
      assert |c| == |d|;
      assert forall k | 0 <= k < |c| :: LowerByte(c[k]) == Fold(c)[k] == Fold(d)[k] == LowerByte(d[k]);
      assert EndsAt(a, |c|) && EndsAt(b, |c|) && AlikeBefore(a, b, |c|);
    }
    if AlikeUpToNul(a, b) {
      var n: nat :| n <= |a| && n <= |b| && EndsAt(a, n) && EndsAt(b, n) && AlikeBefore(a, b, n);
      assert |c| == n && |d| == n;
      assert forall k | 0 <= k < n :: Fold(c)[k] == LowerByte(a[k]) == LowerByte(b[k]) == Fold(d)[k];
      assert Fold(c) == Fold(d);
    }
  }

  // The names of a received table are distinct if and only if no two names of the message are alike up to a NUL:
  // names that differ only behind one, or in case, become the same.
  lemma ReceivedNamesDistinctIff(raw: seq<Entry>)
    ensures DistinctNames(AsCStrings(raw)) <==>
              forall i, j | 0 <= i < j < |raw| :: !AlikeUpToNul(raw[i].name, raw[j].name)
  {
    hide Fold, CString, AlikeUpToNul;
    forall i, j | 0 <= i < j < |raw|
      ensures Fold(AsCStrings(raw)[i].name) == Fold(AsCStrings(raw)[j].name) <==> AlikeUpToNul(raw[i].name, raw[j].name)
    {
      AlikeIff(raw[i].name, raw[j].name);
    }
  }

  // A message that repeats a name, as Set never does, is received.
  lemma ReceivedNamesMayRepeat(e: Entry, f: Entry)
    requires AlikeUpToNul(e.name, f.name)
    ensures Decode(Encode([e, f])) == Some([e, f]) && !DistinctNames(AsCStrings([e, f]))
  {
    CodecRoundTrip([e, f]);
    ReceivedNamesDistinctIff([e, f]);
    hide Encode, Decode, AlikeUpToNul, AsCStrings, DistinctNames;
    assert AlikeUpToNul([e, f][0].name, [e, f][1].name);
  }

  // What is left of a message when `done` entries are read and `count` are still in `b`.
  ghost function Continued(done: seq<Entry>, b: seq<bool>, count: nat): Option<Decoded<seq<Entry>>> {
    match DecodeEntries(b, count)
    case None => None
    case Some(more) => Some(Decoded(done + more.value, more.rest))
  }

  lemma ContinuedStep(done: seq<Entry>, b: seq<bool>, count: nat)
    requires count > 0
    ensures match DecodeEntry(b)
            case None => Continued(done, b, count) == None
            case Some(e) => Continued(done, b, count) == Continued(done + [e.value], e.rest, count - 1)
  {
    match DecodeEntry(b)
    case None =>
    case Some(e) =>
      match DecodeEntries(e.rest, count - 1)
      case None =>
      case Some(more) =>
        hide DecodeEntry;
        DecodeOneMore(b, count, e, more);
        assert done + ([e.value] + more.value) == done + [e.value] + more.value;
  }

  lemma SliceOfSlice<T>(s: seq<T>, lo: nat, hi: nat, i: nat, j: nat)
    requires i <= j && lo + j <= hi <= |s|
    ensures s[lo..hi][i..j] == s[lo + i..lo + j]
  {
    assert forall k | 0 <= k < j - i :: s[lo..hi][i..j][k] == s[lo..hi][i + k] == s[lo + i..lo + j][k];
  }

  // bf_read over the bits of a message

  class BitReader {
    const bits: seq<bool>
    var position: nat
    var overflowed: bool

    ghost predicate Valid()
      reads this
    {
      position <= |bits|
    }

    // The bits from here to endBit.
    ghost function Upto(endBit: int): seq<bool>
      requires position <= endBit <= |bits|
      reads this
    {
      bits[position..endBit]
    }

    constructor (bits: seq<bool>)
      ensures Valid() && this.bits == bits && position == 0 && !overflowed
    {
      this.bits, position, overflowed := bits, 0, false;
    }

    // ReadUBitLong(8)
    method ReadByte() returns (x: uint8)
      requires Valid()
      modifies this
      ensures Valid()
      ensures if old(position) + 8 <= |bits|
              then position == old(position) + 8 && x == BitsByte(bits[old(position)..position])
                   && overflowed == old(overflowed)
              else position == |bits| && x == 0 && overflowed
    {
      if |bits| - position < 8 {
        position, overflowed := |bits|, true;
        return 0;
      }
      x := BitsByte(bits[position..position + 8]);
      position := position + 8;
    }

    method ReadBytes(n: nat) returns (s: bytes, ok: bool)
      requires Valid()
      modifies this
      ensures Valid() && ok == !overflowed
      ensures old(position) + 8 * n <= |bits| ==>
                position == old(position) + 8 * n && s == BitsBytes(bits[old(position)..position])
                && overflowed == old(overflowed)
    {
      if |bits| - position < 8 * n {
        position, overflowed := |bits|, true;
        return [], false;
      }
      s := BitsBytes(bits[position..position + 8 * n]);
      position := position + 8 * n;
      ok := !overflowed;
    }

    // Playlist_ReadOverrideString
    method ReadOverrideString(endBit: int, capacity: nat) returns (ok: bool, s: bytes)
      requires Valid() && position <= endBit <= |bits| && !overflowed
      modifies this
      ensures Valid() && position <= endBit && !overflowed
      ensures ok == DecodeString(old(Upto(endBit)), capacity).Some?
      ensures ok ==> DecodeString(old(Upto(endBit)), capacity) == Some(Decoded(s, Upto(endBit)))
    {
      hide BitsByte, BitsBytes;
      ghost var b := Upto(endBit);
      ok, s := false, [];
      if endBit - position < 8 {
        return;
      }
      var length := ReadByte();
      assert b[..8] == bits[old(position)..position];
      if length >= capacity || endBit - position < length * 8 {
        return;
      }
      ghost var p := position;
      s, ok := ReadBytes(length);
      assert p == old(position) + 8 && position == p + 8 * length && 8 + 8 * length <= |b|;
      SliceOfSlice(bits, old(position), endBit, 8, 8 + 8 * length);
      assert b[8 + 8 * length..] == Upto(endBit);
    }
  }

  // bf_write over a buffer of `capacity` bits
  class BitWriter {
    const capacity: nat
    var bits: seq<bool>
    var overflowed: bool

    // StartWriting
    constructor (capacity: nat)
      ensures this.capacity == capacity && bits == [] && !overflowed
    {
      this.capacity, bits, overflowed := capacity, [], false;
    }

    method WriteBytes(s: bytes)
      modifies this
      ensures if old(|bits|) + 8 * |s| <= capacity
              then bits == old(bits) + BytesBits(s) && overflowed == old(overflowed)
              else bits == old(bits) && overflowed
    {
      if |bits| + 8 * |s| > capacity {
        overflowed := true;
        return;
      }
      bits := bits + BytesBits(s);
    }

    method WriteByte(x: uint8)
      modifies this
      ensures if old(|bits|) + 8 <= capacity
              then bits == old(bits) + ByteBits(x) && overflowed == old(overflowed)
              else bits == old(bits) && overflowed
    {
      hide ByteBits;
      assert BytesBits([x]) == ByteBits(x);
      WriteBytes([x]);
    }

    method WriteEntry(e: Entry)
      modifies this
      ensures !old(overflowed) && old(|bits|) + |EncodeEntry(e)| <= capacity ==>
                !overflowed && bits == old(bits) + EncodeEntry(e)
    {
      hide ByteBits, BytesBits;
      WriteByte(|e.name|);
      WriteBytes(e.name);
      WriteByte(|e.value|);
      WriteBytes(e.value);
    }
  }

  class PlaylistVarOverrides {
    var count: nat
    const entries: array<Entry>

    ghost predicate Valid()
      reads this, entries
    {
      entries.Length == MAX_PLAYLIST_VAR_OVERRIDES && count <= entries.Length && TableOk(entries[..count])
    }

    ghost function Contents(): (s: seq<Entry>)
      requires Valid()
      reads this, entries
      ensures TableOk(s)
    {
      entries[..count]
    }

    constructor ()
      ensures Valid() && fresh(entries) && Contents() == []
    {
      count := 0;
      entries := new Entry[MAX_PLAYLIST_VAR_OVERRIDES](_ => Strings([], []));
    }

    // The index of the entry; count stands for nullptr.
    method Find(name: bytes) returns (i: nat)
      requires Valid()
      ensures i == FindIndex(Contents(), name)
    {
      i := 0;
      while i < count
        invariant i <= count
        invariant forall j | 0 <= j < i :: Fold(entries[j].name) != Fold(name)
      {
        if Fold(entries[i].name) == Fold(name) {
          break;
        }
        i := i + 1;
      }
      FindIndexUnique(Contents(), name, i);
    }

    method Set(name: bytes, value: bytes) returns (ok: bool)
      requires Valid() && IsCString(name) && IsCString(value)
      modifies this, entries
      ensures Valid()
      ensures ok == SetEntry(old(Contents()), name, value).Some?
      ensures Contents() == if ok then SetEntry(old(Contents()), name, value).value else old(Contents())
    {
      if |name| >= NAME_SIZE || |value| >= VALUE_SIZE {
        return false;
      }
      var i := Find(name);
      ghost var table := Contents();
      if i == count {
        if count == MAX_PLAYLIST_VAR_OVERRIDES {
          return false;
        }
        count := count + 1;
        entries[i] := Strings(name, value);
        assert entries[..count] == table + [Strings(name, value)];
      } else {
        entries[i] := entries[i].(value := value);
        assert entries[..count] == table[i := table[i].(value := value)];
      }
      ok := true;
    }

    // What a message must look like for Read to take it.
    static ghost function Received(bits: seq<bool>, position: nat, overflowed: bool,
                                   lengthBits: int): (r: Option<seq<Entry>>)
      requires position <= |bits|
    {
      if overflowed || lengthBits < 8 || lengthBits > |bits| - position then None
      else Decode(bits[position..position + lengthBits])
    }

    // The entries of a message, or ok == false as soon as one does not fit.
    method ReadEntries(buffer: BitReader, endBit: int, total: nat)
      returns (ok: bool, received: array<Entry>, ghost raw: seq<Entry>)
      requires total <= MAX_PLAYLIST_VAR_OVERRIDES
      requires buffer.Valid() && buffer.position <= endBit <= |buffer.bits| && !buffer.overflowed
      modifies buffer
      ensures fresh(received) && received.Length == MAX_PLAYLIST_VAR_OVERRIDES
      ensures buffer.Valid() && buffer.position <= endBit && !buffer.overflowed
      ensures ok == DecodeEntries(old(buffer.Upto(endBit)), total).Some?
      ensures ok ==> DecodeEntries(old(buffer.Upto(endBit)), total) == Some(Decoded(raw, buffer.Upto(endBit)))
      ensures ok ==> |raw| == total && received[..total] == AsCStrings(raw)
    {
      hide DecodeString, CString, IsCString;
      received := new Entry[MAX_PLAYLIST_VAR_OVERRIDES](_ => Strings([], []));
      raw := [];
      ghost var whole := buffer.Upto(endBit);
      var i := 0;
      assert forall d: Decoded<seq<Entry>> :: [] + d.value == d.value;
      while i < total
        invariant i == |raw| <= total && received[..i] == AsCStrings(raw)
        invariant buffer.Valid() && buffer.position <= endBit && !buffer.overflowed
        invariant Continued(raw, buffer.Upto(endBit), total - i) == DecodeEntries(whole, total)
      {
        ContinuedStep(raw, buffer.Upto(endBit), total - i);
        var name, value;
        ok, name := buffer.ReadOverrideString(endBit, NAME_SIZE);
        if !ok {
          return;
        }
        ok, value := buffer.ReadOverrideString(endBit, VALUE_SIZE);
        if !ok {
          return;
        }
        received[i] := Strings(CString(name), CString(value));
        raw := raw + [Strings(name, value)];
        assert received[..i + 1] == received[..i] + [received[i]];
        i := i + 1;
      }
      assert raw + [] == raw;
      ok := true;
    }

    // memcpy(entries, received.entries, ...)
    method Install(received: array<Entry>, total: nat)
      requires Valid() && received != entries
      requires received.Length == MAX_PLAYLIST_VAR_OVERRIDES && total <= received.Length && TableOk(received[..total])
      modifies this, entries
      ensures Valid() && Contents() == received[..total]
    {
      hide IsCString;
      ghost var table := received[..total];
      forall i | 0 <= i < total {
        entries[i] := received[i];
      }
      count := total;
      assert entries[..count] == table;
    }

    method Read(buffer: BitReader, lengthBits: int) returns (ok: bool)
      requires Valid() && buffer.Valid()
      modifies this, entries, buffer
      ensures Valid() && buffer.Valid()
      ensures var r := Received(buffer.bits, old(buffer.position), old(buffer.overflowed), lengthBits);
              && ok == r.Some?
              && Contents() == if ok then AsCStrings(r.value) else old(Contents())
    {
      hide BitsByte, DecodeEntries, AsCStrings, CString, IsCString;
      if buffer.overflowed || lengthBits < 8 || lengthBits > |buffer.bits| - buffer.position {
        return false;
      }
      var endBit := buffer.position + lengthBits;
      ghost var whole := buffer.Upto(endBit);
      var total := buffer.ReadByte();
      assert whole[..8] == buffer.bits[old(buffer.position)..buffer.position];
      assert whole[8..] == buffer.Upto(endBit);
      var received;
      ghost var raw;
      ok, received, raw := ReadEntries(buffer, endBit, total);
      if !ok {
        return;
      }
      if buffer.overflowed || buffer.position != endBit {
        return false;
      }
      AsCStringsOk(raw);
      Install(received, total);
    }

    method Write(buffer: BitWriter)
      requires Valid()
      modifies buffer
      ensures !old(buffer.overflowed) && old(|buffer.bits|) + |Encode(Contents())| <= buffer.capacity ==>
                !buffer.overflowed && buffer.bits == old(buffer.bits) + Encode(Contents())
    {
      hide ByteBits, EncodeEntry, EncodeEntries;
      ghost var table := Contents();
      ghost var fits := !buffer.overflowed && |buffer.bits| + |Encode(table)| <= buffer.capacity;
      ghost var target := buffer.bits + Encode(table);
      assert fits ==> |buffer.bits| + 8 <= buffer.capacity;
      buffer.WriteByte(count);
      assert table[0..] == table;
      var i := 0;
      while i < count
        invariant i <= count && Valid() && Contents() == table
        invariant fits ==> !buffer.overflowed && buffer.bits + EncodeEntries(table[i..]) == target
      {
        EncodeWrites(table, i);
        assert entries[i] == table[i];
        buffer.WriteEntry(entries[i]);
        i := i + 1;
      }
      EncodeNone();
      assert table[i..] == [];
    }
  }

  // Playlist_WriteOverridesToBuffer and the receiving client: the buffer has room for any table, and the
  // client ends with the table of the server.
  method SendOverrides(server: PlaylistVarOverrides, client: PlaylistVarOverrides) returns (ok: bool)
    requires server.Valid() && client.Valid() && client != server && client.entries != server.entries
    modifies client, client.entries
    ensures server.Valid() && client.Valid()
    ensures ok && client.Contents() == server.Contents() == old(server.Contents())
  {
    hide Encode, Decode, AsCStrings, TableOk;
    var buffer := new BitWriter((1 + MAX_PLAYLIST_VAR_OVERRIDES * (NAME_SIZE + VALUE_SIZE) + 3) / 4 * 4 * 8);
    ghost var table := server.Contents();
    EncodingFitsBuffer(table);
    server.Write(buffer);
    CodecRoundTrip(table);
    CStringsUnchanged(table);
    var message := new BitReader(buffer.bits);
    assert message.bits[0..|message.bits|] == Encode(table);
    EncodedAtLeastCount(table);
    ok := client.Read(message, |buffer.bits|);
  }
}
