/** CRC-32 of section 3.2.9 of IEEE 802.3 (section 8 of RFC 1952), as a fold over bytes. */
module Crc {
  import opened Bytes

  const POLYNOMIAL: bv32 := 0xEDB8_8320

  function Shift(crc: bv32): bv32 {
    if crc & 1 == 1 then (crc >> 1) ^ POLYNOMIAL else crc >> 1
  }

  function Shifts(crc: bv32, count: nat): bv32
    decreases count
  {
    if count == 0 then crc else Shifts(Shift(crc), count - 1)
  }

  /** The state of a running hash. */
  datatype Hash = Hash(register: bv32)

  /** crc32.NewIEEE. */
  function NewIEEE(): Hash { Hash(0xFFFF_FFFF) }

  /** One byte into the shift register, least significant bit first. */
  function Feed(h: Hash, b: Byte): Hash {
    Hash(Shifts(h.register ^ Bits(b), 8))
  }

  function Bits(b: Byte): bv32 { b as bv32 }

  /** hash.Write: the state after more bytes. */
  function Write(h: Hash, data: seq<Byte>): Hash
    decreases data
  {
    if data == [] then h else Write(Feed(h, data[0]), data[1..])
  }

  /** hash.Sum32. */
  function Sum32(h: Hash): (r: nat)
    ensures r < 0x1_0000_0000
  {
    (h.register ^ 0xFFFF_FFFF) as int
  }

  /** crc32.ChecksumIEEE. */
  function Checksum(data: seq<Byte>): (r: nat)
    ensures r < 0x1_0000_0000
  {
    Sum32(Write(NewIEEE(), data))
  }

  /** Hashing piece by piece is hashing the whole: the encoder's incremental checksum is
      the decoder's one-shot checksum. */
  lemma {:induction false} WriteConcat(h: Hash, a: seq<Byte>, b: seq<Byte>)
    ensures Write(h, a + b) == Write(Write(h, a), b)
    decreases a
  {
    hide Feed;
    if a == [] {
      assert a + b == b;
    } else {
      assert (a + b)[1..] == a[1..] + b;
      WriteConcat(Feed(h, a[0]), a[1..], b);
    }
  }

  // ---- The polynomial ----

  lemma Extends(data: seq<Byte>, b: Byte, before: Hash)
    requires Write(NewIEEE(), data) == before
    ensures Write(NewIEEE(), data + [b]) == Feed(before, b)
  {
    hide Feed;
    WriteConcat(NewIEEE(), data, [b]);
    assert [b][1..] == [];
  }

  lemma FeedIs(h: Hash, b: Byte)
    ensures Feed(h, b) == Hash(Shifts(h.register ^ Bits(b), 8))
  {
    hide Shift, Shifts, Bits;
  }

  /** The digits as bits, and the register through eight shifts for each of them. */
  lemma DigitBits()
    ensures Bits(0x31) == 0x31 && Bits(0x32) == 0x32 && Bits(0x33) == 0x33
    ensures Bits(0x34) == 0x34 && Bits(0x35) == 0x35 && Bits(0x36) == 0x36
    ensures Bits(0x37) == 0x37 && Bits(0x38) == 0x38 && Bits(0x39) == 0x39
  {
  }

  lemma DigitShifts()
    ensures Shifts(0xFFFF_FFFF ^ 0x31, 8) == 0x7C23_1048
    ensures Shifts(0x7C23_1048 ^ 0x32, 8) == 0xB0AC_BB32
    ensures Shifts(0xB0AC_BB32 ^ 0x33, 8) == 0x77B7_9C2D
    ensures Shifts(0x77B7_9C2D ^ 0x34, 8) == 0x641C_1F5C
    ensures Shifts(0x641C_1F5C ^ 0x35, 8) == 0x340A_C5E3
    ensures Shifts(0x340A_C5E3 ^ 0x36, 8) == 0xF68D_2C9E
    ensures Shifts(0xF68D_2C9E ^ 0x37, 8) == 0xAFFC_9660
    ensures Shifts(0xAFFC_9660 ^ 0x38, 8) == 0x651F_2550
    ensures Shifts(0x651F_2550 ^ 0x39, 8) == 0x340B_C6D9
  {
  }

  lemma FirstDigits()
    ensures Write(NewIEEE(), [0x31, 0x32, 0x33, 0x34, 0x35]) == Hash(0x340A_C5E3)
  {
    DigitBits();
    DigitShifts();
    hide Shifts, Write, Feed, Bits;
    assert Write(NewIEEE(), []) == Hash(0xFFFF_FFFF) by { WriteNothing(); }
    Extends([], 0x31, Hash(0xFFFF_FFFF));
    FeedIs(Hash(0xFFFF_FFFF), 0x31);
    assert [] + [0x31] == [0x31];
    Extends([0x31], 0x32, Hash(0x7C23_1048));
    FeedIs(Hash(0x7C23_1048), 0x32);
    assert [0x31] + [0x32] == [0x31, 0x32];
    Extends([0x31, 0x32], 0x33, Hash(0xB0AC_BB32));
    FeedIs(Hash(0xB0AC_BB32), 0x33);
    assert [0x31, 0x32] + [0x33] == [0x31, 0x32, 0x33];
    Extends([0x31, 0x32, 0x33], 0x34, Hash(0x77B7_9C2D));
    FeedIs(Hash(0x77B7_9C2D), 0x34);
    assert [0x31, 0x32, 0x33] + [0x34] == [0x31, 0x32, 0x33, 0x34];
    Extends([0x31, 0x32, 0x33, 0x34], 0x35, Hash(0x641C_1F5C));
    FeedIs(Hash(0x641C_1F5C), 0x35);
    assert [0x31, 0x32, 0x33, 0x34] + [0x35] == [0x31, 0x32, 0x33, 0x34, 0x35];
  }

  lemma WriteNothing()
    ensures Write(NewIEEE(), []) == Hash(0xFFFF_FFFF)
  {
  }

  /** The check value published for this CRC: the checksum of the digits "123456789". */
  lemma CheckValue()
    ensures Checksum([0x31, 0x32, 0x33, 0x34, 0x35, 0x36, 0x37, 0x38, 0x39]) == 0xCBF4_3926
  {
    DigitBits();
    DigitShifts();
    FirstDigits();
    hide Shifts, Write, Feed, Bits;
    Extends([0x31, 0x32, 0x33, 0x34, 0x35], 0x36, Hash(0x340A_C5E3));
    FeedIs(Hash(0x340A_C5E3), 0x36);
    assert [0x31, 0x32, 0x33, 0x34, 0x35] + [0x36] == [0x31, 0x32, 0x33, 0x34, 0x35, 0x36];
    Extends([0x31, 0x32, 0x33, 0x34, 0x35, 0x36], 0x37, Hash(0xF68D_2C9E));
    FeedIs(Hash(0xF68D_2C9E), 0x37);
    assert [0x31, 0x32, 0x33, 0x34, 0x35, 0x36] + [0x37] == [0x31, 0x32, 0x33, 0x34, 0x35, 0x36, 0x37];
    Extends([0x31, 0x32, 0x33, 0x34, 0x35, 0x36, 0x37], 0x38, Hash(0xAFFC_9660));
    FeedIs(Hash(0xAFFC_9660), 0x38);
    assert [0x31, 0x32, 0x33, 0x34, 0x35, 0x36, 0x37] + [0x38] == [0x31, 0x32, 0x33, 0x34, 0x35, 0x36, 0x37, 0x38];
    Extends([0x31, 0x32, 0x33, 0x34, 0x35, 0x36, 0x37, 0x38], 0x39, Hash(0x651F_2550));
    FeedIs(Hash(0x651F_2550), 0x39);
    assert [0x31, 0x32, 0x33, 0x34, 0x35, 0x36, 0x37, 0x38] + [0x39] == [0x31, 0x32, 0x33, 0x34, 0x35, 0x36, 0x37, 0x38, 0x39];
  }
}
