/** The two find-first-set routines of kservice.c with their tables. */
module Ffs {
  /** Bit `b` is the lowest set bit of `v`. */
  predicate Lowest(v: bv32, b: bv8) {
    b < 32 && v & (1 << b) != 0 && v & ((1 << b) - 1) == 0
  }

  /** First entry of each row of sixteen in the 256-entry __lowest_bit_bitmap. */
  function RowHead(row: bv8): bv8 {
    match row
    case 0 => 0 case 1 => 4 case 2 => 5 case 3 => 4 case 4 => 6 case 5 => 4 case 6 => 5 case 7 => 4
    case 8 => 7 case 9 => 4 case 10 => 5 case 11 => 4 case 12 => 6 case 13 => 4 case 14 => 5 case 15 => 4
    case _ => 0
  }

  /** __lowest_bit_bitmap of the default variant: its rows differ only in their first entry. */
  function ByteEntry(i: bv8): bv8 {
    match i & 15
    case 0 => RowHead(i >> 4) case 1 => 0 case 2 => 1 case 3 => 0 case 4 => 2 case 5 => 0 case 6 => 1 case 7 => 0
    case 8 => 3 case 9 => 0 case 10 => 1 case 11 => 0 case 12 => 2 case 13 => 0 case 14 => 1 case 15 => 0
    case _ => 0
  }

  /** __lowest_bit_bitmap of RT_USING_TINY_FFS: 37 entries. */
  function TinyEntry(i: bv8): bv8 {
    match i
    case 0 => 0 case 1 => 1 case 2 => 2 case 3 => 27 case 4 => 3 case 5 => 24 case 6 => 28 case 7 => 32
    case 8 => 4 case 9 => 17 case 10 => 25 case 11 => 31 case 12 => 29 case 13 => 12 case 14 => 32 case 15 => 14
    case 16 => 5 case 17 => 8 case 18 => 18 case 19 => 32 case 20 => 26 case 21 => 23 case 22 => 32 case 23 => 16
    case 24 => 30 case 25 => 11 case 26 => 13 case 27 => 7 case 28 => 32 case 29 => 22 case 30 => 15 case 31 => 10
    case 32 => 6 case 33 => 21 case 34 => 9 case 35 => 20 case 36 => 19
    case _ => 0
  }

  /** __rt_ffs, default variant. */
  function FfsTable(v: bv32): bv8 {
    if v == 0 then 0
    else if v & 0xff != 0 then ByteEntry((v & 0xff) as bv8) + 1
    else if v & 0xff00 != 0 then ByteEntry(((v & 0xff00) >> 8) as bv8) + 9
    else if v & 0xff0000 != 0 then ByteEntry(((v & 0xff0000) >> 16) as bv8) + 17
    else ByteEntry(((v & 0xff000000) >> 24) as bv8) + 25
  }

  /** The lowest set bit alone. */
  function Isolated(v: bv32): bv32 {
    (v & (v - 1)) ^ v
  }

  function Rem37(v: bv32): bv8 {
    ((v % 37) & 0xff) as bv8
  }

  /** __rt_ffs, RT_USING_TINY_FFS variant. */
  function FfsTiny(v: bv32): bv8 {
    TinyEntry(Rem37(Isolated(v)))
  }

  /** A set bit of one byte of the word, and nothing below it. */
  predicate LowestOfByte(i: bv8, b: bv8) {
    b < 8 && i & (1 << b) != 0 && i & ((1 << b) - 1) == 0
  }

  lemma ByteEntryLowest(i: bv8)
    requires i != 0
    ensures LowestOfByte(i, ByteEntry(i))
  {}

  lemma Byte0(v: bv32, b: bv8)
    requires v & 0xff != 0 && LowestOfByte((v & 0xff) as bv8, b)
    ensures Lowest(v, b)
  {}

  lemma Byte1(v: bv32, b: bv8)
    requires v & 0xff == 0 && v & 0xff00 != 0 && LowestOfByte(((v & 0xff00) >> 8) as bv8, b)
    ensures Lowest(v, b + 8)
  {}

  lemma Byte2(v: bv32, b: bv8)
    requires v & 0xff == 0 && v & 0xff00 == 0 && v & 0xff0000 != 0 && LowestOfByte(((v & 0xff0000) >> 16) as bv8, b)
    ensures Lowest(v, b + 16)
  {}

  lemma Byte3(v: bv32, b: bv8)
    requires v & 0xff == 0 && v & 0xff00 == 0 && v & 0xff0000 == 0 && LowestOfByte(((v & 0xff000000) >> 24) as bv8, b)
    ensures Lowest(v, b + 24)
  {}

  lemma ByteNonZero(v: bv32)
    ensures v & 0xff != 0 ==> (v & 0xff) as bv8 != 0
    ensures v & 0xff00 != 0 ==> ((v & 0xff00) >> 8) as bv8 != 0
    ensures v & 0xff0000 != 0 ==> ((v & 0xff0000) >> 16) as bv8 != 0
    ensures v != 0 && v & 0xff == 0 && v & 0xff00 == 0 && v & 0xff0000 == 0 ==> ((v & 0xff000000) >> 24) as bv8 != 0
  {}

  /** The default variant returns one more than the lowest set bit. */
  lemma FfsTableLowest(v: bv32)
    requires v != 0
    ensures 1 <= FfsTable(v) <= 32 && Lowest(v, FfsTable(v) - 1)
  {
    hide ByteEntry, LowestOfByte, Lowest;
    ByteNonZero(v);
    if v & 0xff != 0 {
      var i := (v & 0xff) as bv8;
      ByteEntryLowest(i);
      Byte0(v, ByteEntry(i));
      Small(v, ByteEntry(i));
      assert FfsTable(v) - 1 == ByteEntry(i);
    } else if v & 0xff00 != 0 {
      var i := ((v & 0xff00) >> 8) as bv8;
      ByteEntryLowest(i);
      Byte1(v, ByteEntry(i));
      Small(v, ByteEntry(i) + 8);
    } else if v & 0xff0000 != 0 {
      var i := ((v & 0xff0000) >> 16) as bv8;
      ByteEntryLowest(i);
      Byte2(v, ByteEntry(i));
      Small(v, ByteEntry(i) + 16);
    } else {
      var i := ((v & 0xff000000) >> 24) as bv8;
      ByteEntryLowest(i);
      Byte3(v, ByteEntry(i));
      Small(v, ByteEntry(i) + 24);
    }
  }

  lemma Small(v: bv32, b: bv8)
    requires Lowest(v, b)
    ensures b < 32
  {}

  function Power(b: bv8): bv32
    requires b < 32
  {
    1 << b
  }

  /** Every power of two has its own remainder modulo 37. */
  lemma Remainders()
    ensures Rem37(1) == 1 && Rem37(2) == 2 && Rem37(4) == 4 && Rem37(8) == 8 && Rem37(16) == 16 && Rem37(32) == 32 && Rem37(64) == 27 && Rem37(128) == 17
    ensures Rem37(256) == 34 && Rem37(512) == 31 && Rem37(1024) == 25 && Rem37(2048) == 13 && Rem37(4096) == 26 && Rem37(8192) == 15 && Rem37(16384) == 30 && Rem37(32768) == 23
    ensures Rem37(65536) == 9 && Rem37(131072) == 18 && Rem37(262144) == 36 && Rem37(524288) == 35 && Rem37(1048576) == 33 && Rem37(2097152) == 29 && Rem37(4194304) == 21 && Rem37(8388608) == 5
    ensures Rem37(16777216) == 10 && Rem37(33554432) == 20 && Rem37(67108864) == 3 && Rem37(134217728) == 6 && Rem37(268435456) == 12 && Rem37(536870912) == 24 && Rem37(1073741824) == 11 && Rem37(2147483648) == 22
  {}

  lemma Powers(b: bv8)
    requires b < 32
    ensures (b == 0 ==> Power(b) == 1) && (b == 1 ==> Power(b) == 2) && (b == 2 ==> Power(b) == 4) && (b == 3 ==> Power(b) == 8)
    ensures (b == 4 ==> Power(b) == 16) && (b == 5 ==> Power(b) == 32) && (b == 6 ==> Power(b) == 64) && (b == 7 ==> Power(b) == 128)
    ensures (b == 8 ==> Power(b) == 256) && (b == 9 ==> Power(b) == 512) && (b == 10 ==> Power(b) == 1024) && (b == 11 ==> Power(b) == 2048)
    ensures (b == 12 ==> Power(b) == 4096) && (b == 13 ==> Power(b) == 8192) && (b == 14 ==> Power(b) == 16384) && (b == 15 ==> Power(b) == 32768)
    ensures (b == 16 ==> Power(b) == 65536) && (b == 17 ==> Power(b) == 131072) && (b == 18 ==> Power(b) == 262144) && (b == 19 ==> Power(b) == 524288)
    ensures (b == 20 ==> Power(b) == 1048576) && (b == 21 ==> Power(b) == 2097152) && (b == 22 ==> Power(b) == 4194304) && (b == 23 ==> Power(b) == 8388608)
    ensures (b == 24 ==> Power(b) == 16777216) && (b == 25 ==> Power(b) == 33554432) && (b == 26 ==> Power(b) == 67108864) && (b == 27 ==> Power(b) == 134217728)
    ensures (b == 28 ==> Power(b) == 268435456) && (b == 29 ==> Power(b) == 536870912) && (b == 30 ==> Power(b) == 1073741824) && (b == 31 ==> Power(b) == 2147483648)
  {}

  lemma Entries0()
    ensures TinyEntry(1) == 1 && TinyEntry(2) == 2 && TinyEntry(4) == 3 && TinyEntry(8) == 4 && TinyEntry(16) == 5 && TinyEntry(32) == 6 && TinyEntry(27) == 7 && TinyEntry(17) == 8
  {}

  lemma Entries1()
    ensures TinyEntry(34) == 9 && TinyEntry(31) == 10 && TinyEntry(25) == 11 && TinyEntry(13) == 12 && TinyEntry(26) == 13 && TinyEntry(15) == 14 && TinyEntry(30) == 15 && TinyEntry(23) == 16
  {}

  lemma Entries2()
    ensures TinyEntry(9) == 17 && TinyEntry(18) == 18 && TinyEntry(36) == 19 && TinyEntry(35) == 20 && TinyEntry(33) == 21 && TinyEntry(29) == 22 && TinyEntry(21) == 23 && TinyEntry(5) == 24
  {}

  lemma Entries3()
    ensures TinyEntry(10) == 25 && TinyEntry(20) == 26 && TinyEntry(3) == 27 && TinyEntry(6) == 28 && TinyEntry(12) == 29 && TinyEntry(24) == 30 && TinyEntry(11) == 31 && TinyEntry(22) == 32
  {}

  lemma TinyEntryOfPower(b: bv8)
    requires b < 32
    ensures TinyEntry(Rem37(Power(b))) == b + 1
  {
    Remainders();
    Powers(b);
    Entries0();
    Entries1();
    Entries2();
    Entries3();
    hide Rem37, Power, TinyEntry;
  }

  lemma IsolatedIsPower(v: bv32, b: bv8)
    requires Lowest(v, b)
    ensures Isolated(v) == Power(b)
  {}

  /** The mod-37 variant agrees with the table variant on every word. */
  lemma FfsVariantsAgree(v: bv32)
    ensures FfsTiny(v) == FfsTable(v)
  {
    if v == 0 {
      assert Isolated(v) == 0;
    } else {
      hide TinyEntry, Rem37, Power, FfsTable, Lowest, Isolated;
      FfsTableLowest(v);
      var b := FfsTable(v) - 1;
      Small(v, b);
      IsolatedIsPower(v, b);
      TinyEntryOfPower(b);
    }
  }
}
