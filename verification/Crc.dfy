/** The cyclic redundancy check of mbcrc.c: two tables against the bit-by-bit definition. */
module Crc {

  // ----- the tables ------------------------------------------------------------------------------

  // The entry of a row of sixteen, by the lower half of the index.
  function Pick(i: bv8, a: bv8, b: bv8, c: bv8, d: bv8, e: bv8, f: bv8, g: bv8, h: bv8,
                j: bv8, k: bv8, l: bv8, m: bv8, n: bv8, o: bv8, p: bv8, q: bv8): bv8 {
    if i & 8 == 0 then
      if i & 4 == 0 then
        if i & 2 == 0 then (if i & 1 == 0 then a else b) else (if i & 1 == 0 then c else d)
      else
        if i & 2 == 0 then (if i & 1 == 0 then e else f) else (if i & 1 == 0 then g else h)
    else
      if i & 4 == 0 then
        if i & 2 == 0 then (if i & 1 == 0 then j else k) else (if i & 1 == 0 then l else m)
      else
        if i & 2 == 0 then (if i & 1 == 0 then n else o) else (if i & 1 == 0 then p else q)
  }

  function aucCRCHi(i: bv8): bv8 {
    if i < 0x10 then Pick(i, 0x00, 0xC1, 0x81, 0x40, 0x01, 0xC0, 0x80, 0x41,
                             0x01, 0xC0, 0x80, 0x41, 0x00, 0xC1, 0x81, 0x40)
    else if i < 0x20 then Pick(i, 0x01, 0xC0, 0x80, 0x41, 0x00, 0xC1, 0x81, 0x40,
                                  0x00, 0xC1, 0x81, 0x40, 0x01, 0xC0, 0x80, 0x41)
    else if i < 0x30 then Pick(i, 0x01, 0xC0, 0x80, 0x41, 0x00, 0xC1, 0x81, 0x40,
                                  0x00, 0xC1, 0x81, 0x40, 0x01, 0xC0, 0x80, 0x41)
    else if i < 0x40 then Pick(i, 0x00, 0xC1, 0x81, 0x40, 0x01, 0xC0, 0x80, 0x41,
                                  0x01, 0xC0, 0x80, 0x41, 0x00, 0xC1, 0x81, 0x40)
    else if i < 0x50 then Pick(i, 0x01, 0xC0, 0x80, 0x41, 0x00, 0xC1, 0x81, 0x40,
                                  0x00, 0xC1, 0x81, 0x40, 0x01, 0xC0, 0x80, 0x41)
    else if i < 0x60 then Pick(i, 0x00, 0xC1, 0x81, 0x40, 0x01, 0xC0, 0x80, 0x41,
                                  0x01, 0xC0, 0x80, 0x41, 0x00, 0xC1, 0x81, 0x40)
    else if i < 0x70 then Pick(i, 0x00, 0xC1, 0x81, 0x40, 0x01, 0xC0, 0x80, 0x41,
                                  0x01, 0xC0, 0x80, 0x41, 0x00, 0xC1, 0x81, 0x40)
    else if i < 0x80 then Pick(i, 0x01, 0xC0, 0x80, 0x41, 0x00, 0xC1, 0x81, 0x40,
                                  0x00, 0xC1, 0x81, 0x40, 0x01, 0xC0, 0x80, 0x41)
    else if i < 0x90 then Pick(i, 0x01, 0xC0, 0x80, 0x41, 0x00, 0xC1, 0x81, 0x40,
                                  0x00, 0xC1, 0x81, 0x40, 0x01, 0xC0, 0x80, 0x41)
    else if i < 0xA0 then Pick(i, 0x00, 0xC1, 0x81, 0x40, 0x01, 0xC0, 0x80, 0x41,
                                  0x01, 0xC0, 0x80, 0x41, 0x00, 0xC1, 0x81, 0x40)
    else if i < 0xB0 then Pick(i, 0x00, 0xC1, 0x81, 0x40, 0x01, 0xC0, 0x80, 0x41,
                                  0x01, 0xC0, 0x80, 0x41, 0x00, 0xC1, 0x81, 0x40)
    else if i < 0xC0 then Pick(i, 0x01, 0xC0, 0x80, 0x41, 0x00, 0xC1, 0x81, 0x40,
                                  0x00, 0xC1, 0x81, 0x40, 0x01, 0xC0, 0x80, 0x41)
    else if i < 0xD0 then Pick(i, 0x00, 0xC1, 0x81, 0x40, 0x01, 0xC0, 0x80, 0x41,
                                  0x01, 0xC0, 0x80, 0x41, 0x00, 0xC1, 0x81, 0x40)
    else if i < 0xE0 then Pick(i, 0x01, 0xC0, 0x80, 0x41, 0x00, 0xC1, 0x81, 0x40,
                                  0x00, 0xC1, 0x81, 0x40, 0x01, 0xC0, 0x80, 0x41)
    else if i < 0xF0 then Pick(i, 0x01, 0xC0, 0x80, 0x41, 0x00, 0xC1, 0x81, 0x40,
                                  0x00, 0xC1, 0x81, 0x40, 0x01, 0xC0, 0x80, 0x41)
    else Pick(i, 0x00, 0xC1, 0x81, 0x40, 0x01, 0xC0, 0x80, 0x41,
                 0x01, 0xC0, 0x80, 0x41, 0x00, 0xC1, 0x81, 0x40)
  }

  function aucCRCLo(i: bv8): bv8 {
    if i < 0x10 then Pick(i, 0x00, 0xC0, 0xC1, 0x01, 0xC3, 0x03, 0x02, 0xC2,
                             0xC6, 0x06, 0x07, 0xC7, 0x05, 0xC5, 0xC4, 0x04)
    else if i < 0x20 then Pick(i, 0xCC, 0x0C, 0x0D, 0xCD, 0x0F, 0xCF, 0xCE, 0x0E,
                                  0x0A, 0xCA, 0xCB, 0x0B, 0xC9, 0x09, 0x08, 0xC8)
    else if i < 0x30 then Pick(i, 0xD8, 0x18, 0x19, 0xD9, 0x1B, 0xDB, 0xDA, 0x1A,
                                  0x1E, 0xDE, 0xDF, 0x1F, 0xDD, 0x1D, 0x1C, 0xDC)
    else if i < 0x40 then Pick(i, 0x14, 0xD4, 0xD5, 0x15, 0xD7, 0x17, 0x16, 0xD6,
                                  0xD2, 0x12, 0x13, 0xD3, 0x11, 0xD1, 0xD0, 0x10)
    else if i < 0x50 then Pick(i, 0xF0, 0x30, 0x31, 0xF1, 0x33, 0xF3, 0xF2, 0x32,
                                  0x36, 0xF6, 0xF7, 0x37, 0xF5, 0x35, 0x34, 0xF4)
    else if i < 0x60 then Pick(i, 0x3C, 0xFC, 0xFD, 0x3D, 0xFF, 0x3F, 0x3E, 0xFE,
                                  0xFA, 0x3A, 0x3B, 0xFB, 0x39, 0xF9, 0xF8, 0x38)
    else if i < 0x70 then Pick(i, 0x28, 0xE8, 0xE9, 0x29, 0xEB, 0x2B, 0x2A, 0xEA,
                                  0xEE, 0x2E, 0x2F, 0xEF, 0x2D, 0xED, 0xEC, 0x2C)
    else if i < 0x80 then Pick(i, 0xE4, 0x24, 0x25, 0xE5, 0x27, 0xE7, 0xE6, 0x26,
                                  0x22, 0xE2, 0xE3, 0x23, 0xE1, 0x21, 0x20, 0xE0)
    else if i < 0x90 then Pick(i, 0xA0, 0x60, 0x61, 0xA1, 0x63, 0xA3, 0xA2, 0x62,
                                  0x66, 0xA6, 0xA7, 0x67, 0xA5, 0x65, 0x64, 0xA4)
    else if i < 0xA0 then Pick(i, 0x6C, 0xAC, 0xAD, 0x6D, 0xAF, 0x6F, 0x6E, 0xAE,
                                  0xAA, 0x6A, 0x6B, 0xAB, 0x69, 0xA9, 0xA8, 0x68)
    else if i < 0xB0 then Pick(i, 0x78, 0xB8, 0xB9, 0x79, 0xBB, 0x7B, 0x7A, 0xBA,
                                  0xBE, 0x7E, 0x7F, 0xBF, 0x7D, 0xBD, 0xBC, 0x7C)
    else if i < 0xC0 then Pick(i, 0xB4, 0x74, 0x75, 0xB5, 0x77, 0xB7, 0xB6, 0x76,
                                  0x72, 0xB2, 0xB3, 0x73, 0xB1, 0x71, 0x70, 0xB0)
    else if i < 0xD0 then Pick(i, 0x50, 0x90, 0x91, 0x51, 0x93, 0x53, 0x52, 0x92,
                                  0x96, 0x56, 0x57, 0x97, 0x55, 0x95, 0x94, 0x54)
    else if i < 0xE0 then Pick(i, 0x9C, 0x5C, 0x5D, 0x9D, 0x5F, 0x9F, 0x9E, 0x5E,
                                  0x5A, 0x9A, 0x9B, 0x5B, 0x99, 0x59, 0x58, 0x98)
    else if i < 0xF0 then Pick(i, 0x88, 0x48, 0x49, 0x89, 0x4B, 0x8B, 0x8A, 0x4A,
                                  0x4E, 0x8E, 0x8F, 0x4F, 0x8D, 0x4D, 0x4C, 0x8C)
    else Pick(i, 0x44, 0x84, 0x85, 0x45, 0x87, 0x47, 0x46, 0x86,
                 0x82, 0x42, 0x43, 0x83, 0x41, 0x81, 0x80, 0x40)
  }

  // ----- the definition --------------------------------------------------------------------------

  // One bit of the division by the reflected polynomial 0xA001.
  function Shift(c: bv16): bv16 {
    if c & 1 == 1 then (c >> 1) ^ 0xA001 else c >> 1
  }

  function Shift4(c: bv16): bv16 {
    Shift(Shift(Shift(Shift(c))))
  }

  function Shift8(c: bv16): bv16 {
    Shift4(Shift4(c))
  }

  function Mix(c: bv16, b: bv8): bv16 {
    c ^ (b as bv16)
  }

  function Xor(a: bv8, b: bv8): bv8 {
    a ^ b
  }

  // One byte, least significant bit first.
  function AddByte(c: bv16, b: bv8): bv16 {
    Shift8(Mix(c, b))
  }

  // The check of a byte string (section 6.2.2 of MODBUS over Serial Line V1.02).
  function Check(s: seq<bv8>): bv16 {
    if s == [] then 0xFFFF else AddByte(Check(s[..|s| - 1]), s[|s| - 1])
  }

  lemma CheckAppend(s: seq<bv8>, b: bv8)
    ensures Check(s + [b]) == AddByte(Check(s), b)
  {
    assert (s + [b])[..|s|] == s;
  }

  function LowByte(c: bv16): bv8 {
    (c & 0xFF) as bv8
  }

  function HighByte(c: bv16): bv8 {
    (c >> 8) as bv8
  }

  function Word(hi: bv8, lo: bv8): bv16 {
    ((hi as bv16) << 8) | (lo as bv16)
  }

  // ----- the tables are right --------------------------------------------------------------------

  // What four bits of the division make of the four bits that leave.
  function Nibble(k: bv16): bv16 {
    (if k & 1 == 0 then 0 else 0xCC01) ^ (if k & 2 == 0 then 0 else 0xD801)
    ^ (if k & 4 == 0 then 0 else 0xF001) ^ (if k & 8 == 0 then 0 else 0xA001)
  }

  function Xor16(a: bv16, b: bv16): bv16 {
    a ^ b
  }

  function Low(c: bv16): bv16 {
    c & 15
  }

  function Down(c: bv16): bv16 {
    c >> 4
  }

  function Four(c: bv16): bv16 {
    Xor16(Down(c), Nibble(Low(c)))
  }

  // One bit and two bits at a time, in the same way.
  function Odd(c: bv16): bv16 {
    c & 1
  }

  function Half(c: bv16): bv16 {
    c >> 1
  }

  function Bit(k: bv16): bv16 {
    if k == 0 then 0 else 0xA001
  }

  function LowTwo(c: bv16): bv16 {
    c & 3
  }

  function Quarter(c: bv16): bv16 {
    c >> 2
  }

  function Pair(k: bv16): bv16 {
    (if k & 1 == 0 then 0 else 0xF001) ^ (if k & 2 == 0 then 0 else 0xA001)
  }

  function Two(c: bv16): bv16 {
    Xor16(Quarter(c), Pair(LowTwo(c)))
  }

  lemma OneExact(c: bv16)
    ensures Shift(c) == Xor16(Half(c), Bit(Odd(c)))
  {
    if c & 1 == 1 {
    } else {
      assert c & 1 == 0;
    }
  }

  lemma HalfXor(a: bv16, b: bv16)
    ensures Half(Xor16(a, b)) == Xor16(Half(a), Half(b)) && Odd(Xor16(a, b)) == Xor16(Odd(a), Odd(b))
  {
  }

  lemma HalfTwice(c: bv16)
    ensures Half(Half(c)) == Quarter(c) && Odd(LowTwo(c)) == Odd(c) && Odd(Half(LowTwo(c))) == Odd(Half(c))
    ensures LowTwo(c) < 4
  {
  }

  lemma PairIs(k: bv16)
    requires k < 4
    ensures Pair(k) == Xor16(Half(Bit(Odd(k))), Bit(Xor16(Odd(Half(k)), Odd(Bit(Odd(k))))))
  {
  }

  lemma XorAssociates(a: bv16, b: bv16, c: bv16)
    ensures Xor16(Xor16(a, b), c) == Xor16(a, Xor16(b, c))
  {
  }

  lemma TwoExact(c: bv16)
    ensures Shift(Shift(c)) == Two(c)
  {
    hide Shift, Xor16, Bit, Pair, Odd, Half, LowTwo, Quarter;
    var n := Bit(Odd(c));
    OneExact(c);
    OneExact(Xor16(Half(c), n));
    HalfXor(Half(c), n);
    HalfTwice(c);
    PairIs(LowTwo(c));
    XorAssociates(Quarter(c), Half(n), Bit(Xor16(Odd(Half(c)), Odd(n))));
  }

  lemma QuarterXor(a: bv16, b: bv16)
    ensures Quarter(Xor16(a, b)) == Xor16(Quarter(a), Quarter(b))
    ensures LowTwo(Xor16(a, b)) == Xor16(LowTwo(a), LowTwo(b))
  {
  }

  lemma QuarterTwice(c: bv16)
    ensures Quarter(Quarter(c)) == Down(c) && Low(c) < 16
    ensures LowTwo(Low(c)) == LowTwo(c) && LowTwo(Quarter(Low(c))) == LowTwo(Quarter(c))
  {
  }

  lemma NibbleIs(k: bv16)
    requires k < 16
    ensures Nibble(k)
         == Xor16(Quarter(Pair(LowTwo(k))), Pair(Xor16(LowTwo(Quarter(k)), LowTwo(Pair(LowTwo(k))))))
  {
  }

  lemma FourExact(c: bv16)
    ensures Shift4(c) == Four(c)
  {
    hide Shift, Low, Down, Nibble, Xor16, Pair, LowTwo, Quarter;
    var n := Pair(LowTwo(c));
    TwoExact(c);
    TwoExact(Two(c));
    QuarterXor(Quarter(c), n);
    QuarterTwice(c);
    NibbleIs(Low(c));
    XorAssociates(Down(c), Quarter(n), Pair(Xor16(LowTwo(Quarter(c)), LowTwo(n))));
  }

  // The lower and the upper half of a byte.
  function Lower(b: bv8): bv16 {
    (b as bv16) & 15
  }

  function Upper(b: bv8): bv16 {
    (b as bv16) >> 4
  }

  // What eight bits of the division make of the four bits that leave first, and of a byte.
  function Early(k: bv16): bv16 {
    (if k & 1 == 0 then 0 else 0xC0C1) ^ (if k & 2 == 0 then 0 else 0xC181)
    ^ (if k & 4 == 0 then 0 else 0xC301) ^ (if k & 8 == 0 then 0 else 0xC601)
  }

  function Byte8(b: bv8): bv16 {
    Xor16(Early(Lower(b)), Nibble(Upper(b)))
  }

  lemma HalvesOf(b: bv8, n: bv16)
    ensures Low(b as bv16) == Lower(b) && Down(b as bv16) == Upper(b) && Lower(b) < 16 && Upper(b) < 16
    ensures Down(Xor16(Upper(b), n)) == Down(n) && Low(Xor16(Upper(b), n)) == Xor16(Upper(b), Low(n))
  {
  }

  // Of what the first four bits leave, one bit takes part in the division of the others.
  lemma EarlyIs(k: bv16)
    requires k < 16
    ensures var n := Nibble(k); Low(n) < 2 && Early(k) == Xor16(Down(n), Nibble(Low(n)))
  {
  }

  lemma NibbleXor(h: bv16, x: bv16)
    requires h < 16 && x < 2
    ensures Nibble(Xor16(h, x)) == Xor16(Nibble(x), Nibble(h))
  {
  }

  lemma FourFour(b: bv8)
    ensures Four(Four(b as bv16)) == Byte8(b)
  {
    hide Early, Nibble, Lower, Upper, Xor16, Down, Low;
    var n := Nibble(Lower(b));
    HalvesOf(b, n);
    EarlyIs(Lower(b));
    NibbleXor(Upper(b), Low(n));
    XorAssociates(Down(n), Nibble(Low(n)), Nibble(Upper(b)));
  }

  lemma Byte8Exact(b: bv8)
    ensures Shift8(b as bv16) == Byte8(b)
  {
    hide Shift4, Four, Byte8;
    FourExact(b as bv16);
    FourExact(Four(b as bv16));
    FourFour(b);
  }

  predicate Entry(i: bv8) {
    Byte8(i) == Word(aucCRCLo(i), aucCRCHi(i))
  }

  lemma Entries0(i: bv8)
    requires i < 0x40
    ensures Entry(i)
  {
  }

  lemma Entries1(i: bv8)
    requires 0x40 <= i < 0x80
    ensures Entry(i)
  {
  }

  lemma Entries2(i: bv8)
    requires 0x80 <= i < 0xC0
    ensures Entry(i)
  {
  }

  lemma Entries3(i: bv8)
    requires 0xC0 <= i
    ensures Entry(i)
  {
  }

  lemma EveryEntry(i: bv8)
    ensures Entry(i)
  {
    hide Entry;
    if i < 0x40 {
      Entries0(i);
    } else if i < 0x80 {
      Entries1(i);
    } else if i < 0xC0 {
      Entries2(i);
    } else {
      Entries3(i);
    }
  }

  // The two tables hold the bytes of what eight bits of division make of the index.
  lemma TablesExact(i: bv8)
    ensures Shift8(i as bv16) == Word(aucCRCLo(i), aucCRCHi(i))
  {
    hide Shift8, Byte8, Word, aucCRCLo, aucCRCHi;
    Byte8Exact(i);
    EveryEntry(i);
  }

  lemma DownXor(a: bv16, b: bv16)
    ensures Down(Xor16(a, b)) == Xor16(Down(a), Down(b))
  {
  }

  lemma DownTwice(c: bv16, x: bv16)
    ensures Xor16(Down(Down(c & 0xFF)), x) == x && Down(Down(c)) == c >> 8
  {
  }

  // Bits that start in the high byte only move down.
  lemma HighMovesDown(c: bv16, n: bv16)
    ensures var l := c & 0xFF; Xor16(c >> 8, Down(Xor16(Down(l), n))) == Down(Xor16(Down(c), n))
  {
    hide Down, Xor16;
    DownXor(Down(c), n);
    DownXor(Down(c & 0xFF), n);
    DownTwice(c, Down(n));
  }

  lemma LowUnmoved(c: bv16, n: bv16)
    ensures var l := c & 0xFF; Low(l) == Low(c) && Low(Xor16(Down(l), n)) == Low(Xor16(Down(c), n))
  {
  }

  // The division is linear, so the high byte only moves down.
  lemma Split(c: bv16)
    ensures Shift8(c) == Xor16(c >> 8, Shift8(c & 0xFF))
  {
    hide Shift4, Nibble, Xor16, Low, Down;
    var l := c & 0xFF;
    var n := Nibble(Low(c));
    HighMovesDown(c, n);
    LowUnmoved(c, n);
    FourExact(c);
    FourExact(l);
    FourExact(Xor16(Down(c), n));
    FourExact(Xor16(Down(l), n));
    XorAssociates(c >> 8, Down(Xor16(Down(l), n)), Nibble(Low(Xor16(Down(c), n))));
  }

  lemma LowOnly(c: bv16)
    ensures LowByte(c) as bv16 == c & 0xFF
  {
  }

  lemma HighOnly(c: bv16, x: bv16)
    ensures Mix(x, HighByte(c)) == Xor16(c >> 8, x)
  {
  }

  lemma SplitBytes(c: bv16)
    ensures Shift8(c) == Mix(Shift8(LowByte(c) as bv16), HighByte(c))
  {
    hide Shift8, Mix, LowByte, HighByte, Xor16;
    Split(c);
    LowOnly(c);
    HighOnly(c, Shift8(c & 0xFF));
  }

  // One round of the loop of usMBCRC16, on the two bytes of the check.
  lemma RoundExact(hi: bv8, lo: bv8, b: bv8)
    ensures AddByte(Word(hi, lo), b) == Word(aucCRCLo(Xor(lo, b)), Xor(hi, aucCRCHi(Xor(lo, b))))
  {
    hide aucCRCLo, aucCRCHi, Shift8, Word, Mix, Xor, LowByte, HighByte;
    var i := Xor(lo, b);
    TablesExact(i);
    SplitBytes(Mix(Word(hi, lo), b));
    Parts(hi, lo, b);
    MixWord(aucCRCLo(i), aucCRCHi(i), hi);
  }

  lemma Parts(hi: bv8, lo: bv8, b: bv8)
    ensures LowByte(Mix(Word(hi, lo), b)) == Xor(lo, b) && HighByte(Mix(Word(hi, lo), b)) == hi
  {
  }

  lemma MixWord(x: bv8, y: bv8, hi: bv8)
    ensures Mix(Word(x, y), hi) == Word(x, Xor(hi, y))
  {
  }

  lemma StartWord()
    ensures Word(0xFF, 0xFF) == 0xFFFF
  {
  }

  method usMBCRC16(frame: seq<bv8>) returns (crc: bv16)
    ensures crc == Check(frame)
  {
    hide aucCRCLo, aucCRCHi, AddByte, Word, Xor;
    var ucCRCHi: bv8, ucCRCLo: bv8 := 0xFF, 0xFF;
    StartWord();
    for k := 0 to |frame|
      invariant Word(ucCRCHi, ucCRCLo) == Check(frame[..k])
    {
      var iIndex := Xor(ucCRCLo, frame[k]);
      RoundExact(ucCRCHi, ucCRCLo, frame[k]);
      assert frame[..k + 1] == frame[..k] + [frame[k]];
      CheckAppend(frame[..k], frame[k]);
      ucCRCLo := Xor(ucCRCHi, aucCRCHi(iIndex));
      ucCRCHi := aucCRCLo(iIndex);
    }
    assert frame[..|frame|] == frame;
    crc := Word(ucCRCHi, ucCRCLo);
  }

  // ----- the residual ----------------------------------------------------------------------------

  // Division by the polynomial can be undone.
  lemma ShiftZero(c: bv16)
    ensures Shift8(c) == 0 <==> c == 0
  {
  }

  lemma ShiftByte(i: bv8)
    ensures Shift8(i as bv16) <= 0xFF <==> i == 0
    ensures Shift8(0) == 0
  {
  }

  lemma MixZero(c: bv16, b: bv8)
    ensures Mix(c, b) == 0 ==> c <= 0xFF
    ensures Mix(Mix(0, b), b) == 0
    ensures Mix(c, b) <= 0xFF <==> c <= 0xFF
  {
  }

  lemma MixTwice(h: bv8, b: bv8)
    ensures Mix(Mix(0, h), b) == 0 <==> b == h
  {
  }

  lemma MixParts(c: bv16, a: bv8)
    ensures LowByte(Mix(c, a)) == 0 <==> a == LowByte(c)
    ensures HighByte(Mix(c, a)) == HighByte(c)
  {
  }

  // Two more bytes make the check zero exactly if they are the check itself, low byte first.
  lemma ResidualIff(s: seq<bv8>, a: bv8, b: bv8)
    ensures Check(s + [a, b]) == 0 <==> a == LowByte(Check(s)) && b == HighByte(Check(s))
  {
    hide Shift8, LowByte, HighByte, Mix;
    var c := Check(s);
    var low := LowByte(Mix(c, a));
    var x := Shift8(low as bv16);
    assert s + [a, b] == (s + [a]) + [b];
    CheckAppend(s, a);
    CheckAppend(s + [a], b);
    SplitBytes(Mix(c, a));
    MixParts(c, a);
    ShiftZero(Mix(Mix(x, HighByte(c)), b));
    MixZero(Mix(x, HighByte(c)), b);
    MixZero(x, HighByte(c));
    ShiftByte(low);
    MixTwice(HighByte(c), b);
  }
}
