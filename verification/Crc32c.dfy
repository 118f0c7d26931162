/** CRC-32C (Castagnoli, section 12.1 of RFC 3720), bit by bit, and why a change
    confined to one byte can never keep the checksum. */
module Crc32c {
  import opened ByteStrings

  /** The reflected generator polynomial. */
  const POLY: bv32 := 0x82f6_3b78

  // ---- Bytes and register bits ----

  datatype Bits = Bits(b0: bool, b1: bool, b2: bool, b3: bool, b4: bool, b5: bool, b6: bool, b7: bool)

  function BitsOf(b: Byte): Bits {
    var b7 := b >= 128;
    var r7 := b - Weight(b7, 128);
    var b6 := r7 >= 64;
    var r6 := r7 - Weight(b6, 64);
    var b5 := r6 >= 32;
    var r5 := r6 - Weight(b5, 32);
    var b4 := r5 >= 16;
    var r4 := r5 - Weight(b4, 16);
    var b3 := r4 >= 8;
    var r3 := r4 - Weight(b3, 8);
    var b2 := r3 >= 4;
    var r2 := r3 - Weight(b2, 4);
    var b1 := r2 >= 2;
    Bits(r2 - Weight(b1, 2) >= 1, b1, b2, b3, b4, b5, b6, b7)
  }

  function Weight(f: bool, w: nat): nat {
    if f then w else 0
  }

  function ToByte(x: Bits): Byte {
    Weight(x.b0, 1) + Weight(x.b1, 2) + Weight(x.b2, 4) + Weight(x.b3, 8)
    + Weight(x.b4, 16) + Weight(x.b5, 32) + Weight(x.b6, 64) + Weight(x.b7, 128)
  }

  function Mask(f: bool, m: bv32): bv32 {
    if f then m else 0
  }

  /** The byte zero-extended to the register width. */
  function Widen(x: Bits): bv32 {
    Mask(x.b0, 1) | Mask(x.b1, 2) | Mask(x.b2, 4) | Mask(x.b3, 8)
    | Mask(x.b4, 16) | Mask(x.b5, 32) | Mask(x.b6, 64) | Mask(x.b7, 128)
  }

  /** The low byte of a register. */
  function LowBits(r: bv32): Bits {
    Bits(r & 1 != 0, r & 2 != 0, r & 4 != 0, r & 8 != 0, r & 16 != 0, r & 32 != 0, r & 64 != 0, r & 128 != 0)
  }

  /** The register as four little-endian bytes. */
  function RegisterBytes(r: bv32): (s: Bytes)
    ensures |s| == 4
  {
    [ToByte(LowBits(r)), ToByte(LowBits(r >> 8)), ToByte(LowBits(r >> 16)), ToByte(LowBits(r >> 24))]
  }

  // ---- The checksum ----

  function Shift(r: bv32): bv32 {
    (r >> 1) ^ (POLY & (0 - (r & 1)))
  }

  function Shifts(r: bv32, n: nat): bv32 {
    if n == 0 then r else Shift(Shifts(r, n - 1))
  }

  /** One byte, already widened, shifted out in `n` rounds. */
  function Mixed(r: bv32, a: bv32, n: nat): bv32 {
    Shifts(r ^ a, n)
  }

  function FeedBits(r: bv32, x: Bits, n: nat): bv32 {
    Mixed(r, Widen(x), n)
  }

  function Feed(r: bv32, b: Byte, n: nat): bv32 {
    FeedBits(r, BitsOf(b), n)
  }

  function FeedAll(r: bv32, s: Bytes, n: nat): bv32 {
    if s == [] then r else Feed(FeedAll(r, s[..|s| - 1], n), s[|s| - 1], n)
  }

  function Checksum(s: Bytes): bv32 {
    !FeedAll(0xffff_ffff, s, 8)
  }

  method ShiftOut(start: bv32, n: nat) returns (crc: bv32)
    ensures crc == Shifts(start, n)
  {
    crc := start;
    for k := 0 to n
      invariant crc == Shifts(start, k)
    {
      var mask := 0 - (crc & 1);
      crc := (crc >> 1) ^ (POLY & mask);
    }
  }

  method FeedBytes(start: bv32, s: Bytes, n: nat) returns (crc: bv32)
    ensures crc == FeedAll(start, s, n)
  {
    crc := start;
    for i := 0 to |s|
      invariant crc == FeedAll(start, s[..i], n)
    {
      assert s[..i + 1][..i] == s[..i];
      crc := ShiftOut(crc ^ Widen(BitsOf(s[i])), n);
    }
    assert s[..|s|] == s;
  }

  method Compute(s: Bytes) returns (crc: bv32)
    ensures crc == Checksum(s)
  {
    crc := FeedBytes(0xffff_ffff, s, 8);
    crc := !crc;
  }

  // ---- Every step is injective ----

  lemma ToByteInjective(x: Bits, y: Bits)
    requires ToByte(x) == ToByte(y)
    ensures x == y
  {
  }

  lemma BitsRoundTrip(b: Byte)
    ensures ToByte(BitsOf(b)) == b
  {
  }

  lemma LowOfWiden(x: Bits)
    ensures LowBits(Widen(x)) == x
  {
  }

  lemma WidenInjective(x: Bits, y: Bits)
    requires Widen(x) == Widen(y)
    ensures x == y
  {
    LowOfWiden(x);
    LowOfWiden(y);
  }

  lemma ShiftInjective(r: bv32, t: bv32)
    requires Shift(r) == Shift(t)
    ensures r == t
  {
  }

  lemma {:induction false} ShiftsInjective(r: bv32, t: bv32, n: nat)
    requires Shifts(r, n) == Shifts(t, n)
    ensures r == t
  {
    if n > 0 {
      ShiftInjective(Shifts(r, n - 1), Shifts(t, n - 1));
      ShiftsInjective(r, t, n - 1);
    }
  }

  lemma XorCancels(r: bv32, t: bv32, m: bv32)
    ensures r ^ m == t ^ m ==> r == t
    ensures m ^ r == m ^ t ==> r == t
  {
  }

  lemma SameMessage(r: bv32, a: bv32, b: bv32, n: nat)
    requires Mixed(r, a, n) == Mixed(r, b, n)
    ensures a == b
  {
    ShiftsInjective(r ^ a, r ^ b, n);
    XorCancels(a, b, r);
  }

  lemma SameRegister(r: bv32, t: bv32, a: bv32, n: nat)
    requires Mixed(r, a, n) == Mixed(t, a, n)
    ensures r == t
  {
    ShiftsInjective(r ^ a, t ^ a, n);
    XorCancels(r, t, a);
  }

  lemma FeedSameByte(r: bv32, t: bv32, b: Byte, n: nat)
    requires Feed(r, b, n) == Feed(t, b, n)
    ensures r == t
  {
    SameRegister(r, t, Widen(BitsOf(b)), n);
  }

  lemma FeedSameBits(r: bv32, x: Bits, y: Bits, n: nat)
    requires FeedBits(r, x, n) == FeedBits(r, y, n)
    ensures Widen(x) == Widen(y)
  {
    SameMessage(r, Widen(x), Widen(y), n);
  }

  lemma FeedSameRegister(r: bv32, b: Byte, c: Byte, n: nat)
    requires Feed(r, b, n) == Feed(r, c, n)
    ensures b == c
  {
    FeedSameBits(r, BitsOf(b), BitsOf(c), n);
    WidenInjective(BitsOf(b), BitsOf(c));
    BitsRoundTrip(b);
    BitsRoundTrip(c);
  }

  lemma {:induction false} FeedAllSplit(r: bv32, a: Bytes, b: Bytes, n: nat)
    ensures FeedAll(r, a + b, n) == FeedAll(FeedAll(r, a, n), b, n)
    decreases |b|
  {
    if b == [] {
      assert a + b == a;
    } else {
      FeedAllSplit(r, a, b[..|b| - 1], n);
      assert (a + b)[..|a + b| - 1] == a + b[..|b| - 1];
    }
  }

  lemma {:induction false} FeedAllInjective(r: bv32, t: bv32, s: Bytes, n: nat)
    requires FeedAll(r, s, n) == FeedAll(t, s, n)
    ensures r == t
    decreases |s|
  {
    if s != [] {
      var init := s[..|s| - 1];
      FeedSameByte(FeedAll(r, init, n), FeedAll(t, init, n), s[|s| - 1], n);
      FeedAllInjective(r, t, init, n);
    }
  }

  lemma FeedOne(r: bv32, a: Bytes, b: Byte, n: nat)
    ensures FeedAll(r, a + [b], n) == Feed(FeedAll(r, a, n), b, n)
  {
  }

  lemma DifferentRegisters(r: bv32, b: Byte, c: Byte, rest: Bytes, n: nat)
    requires b != c
    ensures FeedAll(Feed(r, b, n), rest, n) != FeedAll(Feed(r, c, n), rest, n)
  {
    if FeedAll(Feed(r, b, n), rest, n) == FeedAll(Feed(r, c, n), rest, n) {
      FeedAllInjective(Feed(r, b, n), Feed(r, c, n), rest, n);
      FeedSameRegister(r, b, c, n);
    }
  }

  lemma ChangedRegister(start: bv32, a: Bytes, b: Byte, c: Byte, rest: Bytes, n: nat)
    requires b != c
    ensures FeedAll(start, a + [b] + rest, n) != FeedAll(start, a + [c] + rest, n)
  {
    FeedAllSplit(start, a + [b], rest, n);
    FeedAllSplit(start, a + [c], rest, n);
    FeedOne(start, a, b, n);
    FeedOne(start, a, c, n);
    DifferentRegisters(FeedAll(start, a, n), b, c, rest, n);
  }

  // ---- The register as bytes ----

  lemma RegisterBytesInjective(r: bv32, t: bv32)
    requires RegisterBytes(r) == RegisterBytes(t)
    ensures r == t
  {
    var a, b := RegisterBytes(r), RegisterBytes(t);
    assert a[0] == b[0] && a[1] == b[1] && a[2] == b[2] && a[3] == b[3];
    ToByteInjective(LowBits(r), LowBits(t));
    ToByteInjective(LowBits(r >> 8), LowBits(t >> 8));
    ToByteInjective(LowBits(r >> 16), LowBits(t >> 16));
    ToByteInjective(LowBits(r >> 24), LowBits(t >> 24));
    SameBits(r, t);
  }

  lemma SameBits(r: bv32, t: bv32)
    requires LowBits(r) == LowBits(t) && LowBits(r >> 8) == LowBits(t >> 8)
    requires LowBits(r >> 16) == LowBits(t >> 16) && LowBits(r >> 24) == LowBits(t >> 24)
    ensures r == t
  {
  }

  lemma NotCancels(r: bv32, t: bv32)
    ensures !r == !t ==> r == t
  {
  }

  /** The finished register as it is stored: complemented, little-endian. */
  function Sealed(r: bv32): (s: Bytes)
    ensures |s| == 4
  {
    RegisterBytes(!r)
  }

  lemma DifferentBytes(r: bv32, t: bv32)
    requires r != t
    ensures Sealed(r) != Sealed(t)
  {
    if Sealed(r) == Sealed(t) {
      RegisterBytesInjective(!r, !t);
      NotCancels(r, t);
    }
  }

  function Stored(s: Bytes): (r: Bytes)
    ensures |r| == 4
  {
    Sealed(FeedAll(0xffff_ffff, s, 8))
  }

  lemma StoredIsChecksum(s: Bytes)
    ensures Stored(s) == RegisterBytes(Checksum(s))
  {
  }

  lemma OneByteChangesSealed(start: bv32, a: Bytes, b: Byte, c: Byte, rest: Bytes, n: nat)
    requires b != c
    ensures Sealed(FeedAll(start, a + [b] + rest, n)) != Sealed(FeedAll(start, a + [c] + rest, n))
  {
    ChangedRegister(start, a, b, c, rest, n);
    DifferentBytes(FeedAll(start, a + [b] + rest, n), FeedAll(start, a + [c] + rest, n));
  }

  lemma OneByteChangesStored(a: Bytes, b: Byte, c: Byte, rest: Bytes)
    requires b != c
    ensures Stored(a + [b] + rest) != Stored(a + [c] + rest)
  {
    OneByteChangesSealed(0xffff_ffff, a, b, c, rest, 8);
  }

  /** Two messages that differ in exactly one byte never have the same checksum. */
  lemma OneByteChangesChecksum(a: Bytes, b: Byte, c: Byte, rest: Bytes)
    requires b != c
    ensures Checksum(a + [b] + rest) != Checksum(a + [c] + rest)
  {
    OneByteChangesStored(a, b, c, rest);
    StoredIsChecksum(a + [b] + rest);
    StoredIsChecksum(a + [c] + rest);
  }

  function Feed3(r: bv32, a: Byte, b: Byte, c: Byte, n: nat): bv32 {
    Feed(Feed(Feed(r, a, n), b, n), c, n)
  }

  lemma Three(s: Bytes, a: Byte, b: Byte, c: Byte, start: bv32, r: bv32, n: nat)
    requires FeedAll(start, s, n) == r
    ensures FeedAll(start, s + [a, b, c], n) == Feed3(r, a, b, c, n)
  {
    FeedOne(start, s, a, n);
    FeedOne(start, s + [a], b, n);
    FeedOne(start, s + [a] + [b], c, n);
    assert s + [a, b, c] == s + [a] + [b] + [c];
  }

  lemma Digits1(n: nat)
    requires n == 8
    ensures Feed3(0xffff_ffff, 49, 50, 51, n) == 0xef84_d04d
  {
    assert Feed(0xffff_ffff, 49, 8) == 0x6f0a_661c;
    assert Feed(0x6f0a_661c, 50, 8) == 0x8caa_3b9f;
    assert Feed(0x8caa_3b9f, 51, 8) == 0xef84_d04d;
  }

  lemma Digits2(n: nat)
    requires n == 8
    ensures Feed3(0xef84_d04d, 52, 53, 54, n) == 0xbeca_8e79
  {
    assert Feed(0xef84_d04d, 52, 8) == 0x09c5_0b11;
    assert Feed(0x09c5_0b11, 53, 8) == 0xe72e_dcca;
    assert Feed(0xe72e_dcca, 54, 8) == 0xbeca_8e79;
  }

  lemma Digits3(n: nat)
    requires n == 8
    ensures Feed3(0xbeca_8e79, 55, 56, 57, n) == 0x1cf9_6d7c
  {
    assert Feed(0xbeca_8e79, 55, 8) == 0xedbd_6815;
    assert Feed(0xedbd_6815, 56, 8) == 0x9f78_7f65;
    assert Feed(0x9f78_7f65, 57, 8) == 0x1cf9_6d7c;
  }

  lemma Nine(d: Bytes, start: bv32, r3: bv32, r6: bv32, n: nat)
    requires |d| == 9 && Feed3(start, d[0], d[1], d[2], n) == r3 && Feed3(r3, d[3], d[4], d[5], n) == r6
    ensures FeedAll(start, d, n) == Feed3(r6, d[6], d[7], d[8], n)
  {
    assert [] + [d[0], d[1], d[2]] == d[..3] && d[..3] + [d[3], d[4], d[5]] == d[..6] && d[..6] + [d[6], d[7], d[8]] == d;
    Three([], d[0], d[1], d[2], start, start, n);
    Three(d[..3], d[3], d[4], d[5], start, r3, n);
    Three(d[..6], d[6], d[7], d[8], start, r6, n);
  }

  lemma NineDigits(start: bv32, r3: bv32, r6: bv32, r9: bv32, n: nat)
    requires Feed3(start, 49, 50, 51, n) == r3 && Feed3(r3, 52, 53, 54, n) == r6 && Feed3(r6, 55, 56, 57, n) == r9
    ensures FeedAll(start, [49, 50, 51, 52, 53, 54, 55, 56, 57], n) == r9
  {
    Nine([49, 50, 51, 52, 53, 54, 55, 56, 57], start, r3, r6, n);
  }

  /** The published check value: the digits 1 to 9 in ASCII. */
  lemma KnownVector()
    ensures Checksum([49, 50, 51, 52, 53, 54, 55, 56, 57]) == 0xe306_9283
  {
    Digits1(8);
    Digits2(8);
    Digits3(8);
    NineDigits(0xffff_ffff, 0xef84_d04d, 0xbeca_8e79, 0x1cf9_6d7c, 8);
  }
}
