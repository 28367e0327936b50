/**
  CRC-32 as the installer payload uses it (section 8 of RFC 1952): a table-driven loop
  that can be resumed from a previous checksum.

  The reference is the bit-serial register: each message bit, least significant first,
  enters at the low end and the register steps once. The detection guarantee is stated
  on bits: two messages that differ only inside 32 consecutive bits never share a CRC.

  Facts about single words are proved on their own, with no sequences in sight; the
  inductions over bits then treat the word operations as black boxes.
 */
module Crc32 {

  const POLY: bv32 := 0xEDB8_8320
  const ONES: bv32 := 0xFFFF_FFFF

  // ----- word operations -----

  function Xor(a: bv32, b: bv32): bv32 {
    a ^ b
  }

  function BitWord(bit: bool): bv32 {
    if bit then 1 else 0
  }

  /** One step of the register with no input. */
  function Shift(c: bv32): bv32 {
    if c & 1 == 1 then POLY ^ (c >> 1) else c >> 1
  }

  /** A word with one more bit below it. */
  function Push(w: bv32, bit: bool): bv32 {
    (w << 1) ^ BitWord(bit)
  }

  /** The words that use at most k bits. */
  predicate Fits(w: bv32, k: nat)
    requires k <= 32
  {
    w & (ONES << k) == 0
  }

  function Low(c: bv32): bv32 {
    c & 0xFF
  }

  function High(c: bv32): bv32 {
    c & 0xFFFF_FF00
  }

  /** The register moved down by a byte. */
  function Down8(c: bv32): bv32 {
    c >> 8
  }

  function Widen(b: bv8): bv32 {
    b as bv32
  }

  lemma ShiftInjective(a: bv32, b: bv32)
    requires Shift(a) == Shift(b)
    ensures a == b
  {
  }

  lemma XorFacts(a: bv32, b: bv32, c: bv32)
    ensures Xor(a, b) == Xor(a, c) ==> b == c
    ensures Xor(a, b) == Xor(c, b) ==> a == c
    ensures Xor(Xor(a, b), b) == a
    ensures Xor(a, 0) == a
  {
  }

  lemma ZeroFits()
    ensures Fits(0, 0)
  {
  }

  lemma PushFits(w: bv32, bit: bool, k: nat)
    requires k < 32 && Fits(w, k)
    ensures Fits(Push(w, bit), k + 1)
  {
    var m: bv32 := ONES << k;
    assert ONES << (k + 1) == m << 1;
    assert w & m == 0 ==> ((w << 1) ^ BitWord(bit)) & (m << 1) == 0;
  }

  lemma FitsTop(w: bv32, k: nat)
    requires k < 32 && Fits(w, k)
    ensures w & 0x8000_0000 == 0
  {
    var m: bv32 := ONES << k;
    assert m & 0x8000_0000 != 0;
    assert w & m == 0 && m & 0x8000_0000 != 0 ==> w & 0x8000_0000 == 0;
  }

  lemma PushInjective(v: bv32, b: bool, w: bv32, c: bool)
    requires v & 0x8000_0000 == 0 && w & 0x8000_0000 == 0
    requires Push(v, b) == Push(w, c)
    ensures v == w && b == c
  {
  }

  /** Bits above the one being consumed just slide down. */
  lemma ShiftXor(a: bv32, b: bv32)
    requires Even(b)
    ensures Shift(Xor(a, b)) == Xor(Shift(a), Half(b))
  {
    hide Shift;
    ShiftXorRaw(a, b);
  }

  lemma ShiftXorRaw(a: bv32, b: bv32)
    requires b & 1 == 0
    ensures Shift(a ^ b) == Shift(a) ^ (b >> 1)
  {
    LowBitStays(a, b);
    if a & 1 == 1 {
      OddSlides(a, b);
    } else {
      EvenSlides(a, b);
    }
  }

  lemma LowBitStays(a: bv32, b: bv32)
    requires b & 1 == 0
    ensures (a ^ b) & 1 == a & 1
  {
  }

  lemma OddSlides(a: bv32, b: bv32)
    ensures POLY ^ ((a ^ b) >> 1) == (POLY ^ (a >> 1)) ^ (b >> 1)
  {
  }

  lemma EvenSlides(a: bv32, b: bv32)
    ensures (a ^ b) >> 1 == (a >> 1) ^ (b >> 1)
  {
  }

  predicate Even(c: bv32) {
    c & 1 == 0
  }

  function Half(c: bv32): bv32 {
    c >> 1
  }

  lemma PushParts(c: bv32, w: bv32, bit: bool)
    requires w & 0x8000_0000 == 0
    ensures Even(w << 1) && Half(w << 1) == w
    ensures Xor(c, Push(w, bit)) == Xor(Xor(c, BitWord(bit)), w << 1)
  {
    hide BitWord;
    AddWord(c, BitWord(bit), w);
  }

  lemma AddWord(c: bv32, b: bv32, w: bv32)
    requires w & 0x8000_0000 == 0
    ensures c ^ ((w << 1) ^ b) == (c ^ b) ^ (w << 1)
    ensures (w << 1) & 1 == 0 && (w << 1) >> 1 == w
  {
  }

  lemma ShiftOfPush(c: bv32, w: bv32, bit: bool)
    requires w & 0x8000_0000 == 0
    ensures Shift(Xor(c, Push(w, bit))) == Xor(Shift(Xor(c, BitWord(bit))), w)
  {
    hide Shift, Xor, Push, BitWord, Even, Half;
    PushParts(c, w, bit);
    ShiftXor(Xor(c, BitWord(bit)), w << 1);
  }

  // ----- the register -----

  function Shifts(c: bv32, k: nat): (r: bv32)
    decreases k
  {
    if k == 0 then c else Shifts(Shift(c), k - 1)
  }

  /** One message bit enters the register. */
  function FeedBit(c: bv32, bit: bool): bv32 {
    Shift(Xor(c, BitWord(bit)))
  }

  function FeedBits(c: bv32, bits: seq<bool>): (r: bv32)
    decreases |bits|
  {
    if bits == [] then c else FeedBits(FeedBit(c, bits[0]), bits[1..])
  }

  lemma {:induction false} FeedBitsAppend(c: bv32, a: seq<bool>, b: seq<bool>)
    ensures FeedBits(c, a + b) == FeedBits(FeedBits(c, a), b)
    decreases |a|
  {
    hide FeedBit;
    if a == [] {
      assert a + b == b;
    } else {
      assert (a + b)[1..] == a[1..] + b;
      FeedBitsAppend(FeedBit(c, a[0]), a[1..], b);
    }
  }

  lemma {:induction false} ShiftsInjective(a: bv32, b: bv32, k: nat)
    requires Shifts(a, k) == Shifts(b, k)
    ensures a == b
    decreases k
  {
    hide Shift;
    if k > 0 {
      ShiftsInjective(Shift(a), Shift(b), k - 1);
      ShiftInjective(a, b);
    }
  }

  lemma FeedBitInjective(a: bv32, b: bv32, bit: bool)
    requires FeedBit(a, bit) == FeedBit(b, bit)
    ensures a == b
  {
    ShiftInjective(Xor(a, BitWord(bit)), Xor(b, BitWord(bit)));
    XorFacts(a, BitWord(bit), b);
  }

  lemma {:induction false} FeedBitsInjective(a: bv32, b: bv32, bits: seq<bool>)
    requires FeedBits(a, bits) == FeedBits(b, bits)
    ensures a == b
    decreases |bits|
  {
    hide FeedBit;
    if bits != [] {
      FeedBitsInjective(FeedBit(a, bits[0]), FeedBit(b, bits[0]), bits[1..]);
      FeedBitInjective(a, b, bits[0]);
    }
  }

  // ----- up to 32 bits as one word -----

  /** Up to 32 bits as a word, first bit lowest. */
  function WordOf(bits: seq<bool>): (w: bv32) {
    if bits == [] then 0 else Push(WordOf(bits[1..]), bits[0])
  }

  lemma {:induction false} WordFits(bits: seq<bool>)
    requires |bits| <= 32
    ensures Fits(WordOf(bits), |bits|)
  {
    hide Fits, Push;
    if bits == [] {
      ZeroFits();
    } else {
      WordFits(bits[1..]);
      PushFits(WordOf(bits[1..]), bits[0], |bits| - 1);
    }
  }

  lemma {:induction false} WordOfInjective(x: seq<bool>, y: seq<bool>)
    requires |x| == |y| <= 32 && WordOf(x) == WordOf(y)
    ensures x == y
  {
    hide Push, Fits;
    if x != [] {
      WordFits(x[1..]);
      WordFits(y[1..]);
      FitsTop(WordOf(x[1..]), |x| - 1);
      FitsTop(WordOf(y[1..]), |y| - 1);
      PushInjective(WordOf(x[1..]), x[0], WordOf(y[1..]), y[0]);
      WordOfInjective(x[1..], y[1..]);
      assert x == [x[0]] + x[1..] && y == [y[0]] + y[1..];
    }
  }

  /** Feeding up to 32 bits is the same as adding them as one word and stepping. */
  lemma {:induction false} FeedBitsIsShifts(c: bv32, bits: seq<bool>)
    requires |bits| <= 32
    ensures FeedBits(c, bits) == Shifts(Xor(c, WordOf(bits)), |bits|)
    decreases |bits|
  {
    hide Shift, Xor, Push, BitWord, Fits;
    if bits == [] {
      XorFacts(c, 0, 0);
    } else {
      var w := WordOf(bits[1..]);
      FeedBitsIsShifts(FeedBit(c, bits[0]), bits[1..]);
      WordFits(bits[1..]);
      FitsTop(w, |bits| - 1);
      ShiftOfPush(c, w, bits[0]);
    }
  }

  // ----- bytes as bits -----

  function Bit(b: bv8, i: nat): bool
    requires i < 8
  {
    (b >> i) & 1 == 1
  }

  /** The bits of a byte, least significant first. */
  function BitsOfByte(b: bv8): (bits: seq<bool>)
    ensures |bits| == 8
  {
    [Bit(b, 0), Bit(b, 1), Bit(b, 2), Bit(b, 3), Bit(b, 4), Bit(b, 5), Bit(b, 6), Bit(b, 7)]
  }

  function BitsOf(data: seq<bv8>): (bits: seq<bool>)
    ensures |bits| == 8 * |data|
  {
    if data == [] then [] else BitsOfByte(data[0]) + BitsOf(data[1..])
  }

  lemma {:induction false} BitsOfAppend(a: seq<bv8>, b: seq<bv8>)
    ensures BitsOf(a + b) == BitsOf(a) + BitsOf(b)
  {
    hide BitsOfByte;
    if a == [] {
      assert a + b == b;
    } else {
      assert (a + b)[1..] == a[1..] + b;
      BitsOfAppend(a[1..], b);
    }
  }

  function Push8(b0: bool, b1: bool, b2: bool, b3: bool, b4: bool, b5: bool, b6: bool, b7: bool): bv32 {
    Push(Push(Push(Push(Push(Push(Push(Push(0, b7), b6), b5), b4), b3), b2), b1), b0)
  }

  lemma WordOfEight(s: seq<bool>)
    requires |s| == 8
    ensures WordOf(s) == Push8(s[0], s[1], s[2], s[3], s[4], s[5], s[6], s[7])
  {
    hide Push;
    assert s[1..][1..] == s[2..] && s[2..][1..] == s[3..] && s[3..][1..] == s[4..];
    assert s[4..][1..] == s[5..] && s[5..][1..] == s[6..] && s[6..][1..] == s[7..];
    assert WordOf(s[7..]) == Push(0, s[7]);
    assert WordOf(s[6..]) == Push(WordOf(s[7..]), s[6]);
    assert WordOf(s[5..]) == Push(WordOf(s[6..]), s[5]);
    assert WordOf(s[4..]) == Push(WordOf(s[5..]), s[4]);
    assert WordOf(s[3..]) == Push(WordOf(s[4..]), s[3]);
    assert WordOf(s[2..]) == Push(WordOf(s[3..]), s[2]);
    assert WordOf(s[1..]) == Push(WordOf(s[2..]), s[1]);
  }

  lemma Push8OfByte(b: bv8)
    ensures Push8(Bit(b, 0), Bit(b, 1), Bit(b, 2), Bit(b, 3), Bit(b, 4), Bit(b, 5), Bit(b, 6), Bit(b, 7))
         == Widen(b)
  {
  }

  lemma WordOfByte(b: bv8)
    ensures WordOf(BitsOfByte(b)) == Widen(b)
  {
    hide Push8, Bit, Widen;
    WordOfEight(BitsOfByte(b));
    Push8OfByte(b);
  }

  lemma {:induction false} BitsOfInjective(a: seq<bv8>, b: seq<bv8>)
    requires BitsOf(a) == BitsOf(b)
    ensures a == b
  {
    hide BitsOfByte;
    assert |a| == |b|;
    if a != [] {
      var s, t := BitsOf(a), BitsOf(b);
      assert s[..8] == BitsOfByte(a[0]) && t[..8] == BitsOfByte(b[0]);
      assert s[8..] == BitsOf(a[1..]) && t[8..] == BitsOf(b[1..]);
      ByteOfBits(a[0], b[0]);
      BitsOfInjective(a[1..], b[1..]);
      assert a == [a[0]] + a[1..] && b == [b[0]] + b[1..];
    }
  }

  lemma ByteOfBits(a: bv8, b: bv8)
    requires BitsOfByte(a) == BitsOfByte(b)
    ensures a == b
  {
    hide BitsOfByte, Widen;
    WordOfByte(a);
    WordOfByte(b);
    WidenInjective(a, b);
  }

  lemma WidenInjective(a: bv8, b: bv8)
    requires Widen(a) == Widen(b)
    ensures a == b
  {
  }

  // ----- the code -----

  /** The reference: a bit-serial CRC, register complemented at both ends, resumable. */
  function SerialCrc(data: seq<bv8>, crc: bv32): (r: bv32) {
    Xor(FeedBits(Xor(crc, ONES), BitsOf(data)), ONES)
  }

  /** The table entry, computed by eight steps. */
  method TableEntry(n: bv32) returns (c: bv32)
    ensures c == Shifts(n, 8)
  {
    c := n;
    for k := 0 to 8
      invariant Shifts(c, 8 - k) == Shifts(n, 8)
    {
      if c & 1 == 1 {
        c := POLY ^ (c >> 1);
      } else {
        c := c >> 1;
      }
    }
  }

  /** One table lookup. */
  method TableStep(current: bv32, b: bv8) returns (next: bv32)
    ensures next == FeedBits(current, BitsOfByte(b))
  {
    hide FeedBits, BitsOfByte, Shifts, Low, Xor, Widen, Down8;
    var entry := TableEntry(Low(Xor(current, Widen(b))));
    next := Xor(entry, Down8(current));
    ByteStep(current, b);
  }

  /** The table-driven loop computes the bit-serial CRC of the whole input. */
  method Crc32(data: seq<bv8>, crc: bv32) returns (r: bv32)
    ensures r == SerialCrc(data, crc)
  {
    hide FeedBits, BitsOfByte, Xor;
    var current := Xor(crc, ONES);
    var i := 0;
    assert data[0..] == data;
    while i < |data|
      invariant 0 <= i <= |data|
      invariant FeedBits(current, BitsOf(data[i..])) == FeedBits(Xor(crc, ONES), BitsOf(data))
    {
      FeedBitsAppend(current, BitsOfByte(data[i]), BitsOf(data[i + 1..]));
      assert data[i..][1..] == data[i + 1..];
      current := TableStep(current, data[i]);
      i := i + 1;
    }
    EmptyTail(current, data);
    r := Xor(current, ONES);
  }

  lemma EmptyTail(c: bv32, data: seq<bv8>)
    ensures FeedBits(c, BitsOf(data[|data|..])) == c
  {
  }

  /** Eight steps of a register whose low byte is separated out. */
  lemma ShiftsOfByte(low: bv32, high: bv32)
    requires Low(high) == 0
    ensures Shifts(Xor(low, high), 8) == Xor(Shifts(low, 8), Down8(high))
  {
    hide Low, Xor, Down8, Shifts, Shift8;
    Unroll(Xor(low, high));
    Unroll(low);
    EightShifts(low, high);
  }

  function Shift8(c: bv32): bv32 {
    Shift(Shift(Shift(Shift(Shift(Shift(Shift(Shift(c))))))))
  }

  lemma Unroll(c: bv32)
    ensures Shifts(c, 8) == Shift8(c)
  {
    hide Shift;
    assert Shifts(c, 8) == Shifts(Shift(Shift(c)), 6);
    assert Shifts(Shift(Shift(c)), 6) == Shifts(Shift(Shift(Shift(Shift(c)))), 4);
  }

  function Half8(c: bv32): bv32 {
    Half(Half(Half(Half(Half(Half(Half(Half(c))))))))
  }

  lemma HalfFacts(h: bv32)
    requires Low(h) == 0
    ensures Half8(h) == Down8(h)
    ensures Even(h) && Even(Half(h)) && Even(Half(Half(h))) && Even(Half(Half(Half(h))))
    ensures Even(Half(Half(Half(Half(h))))) && Even(Half(Half(Half(Half(Half(h))))))
    ensures Even(Half(Half(Half(Half(Half(Half(h))))))) && Even(Half(Half(Half(Half(Half(Half(Half(h))))))))
  {
  }

  lemma EightShifts(low: bv32, high: bv32)
    requires Low(high) == 0
    ensures Shift8(Xor(low, high)) == Xor(Shift8(low), Down8(high))
  {
    hide Shift, Xor, Even, Half, Down8, Low;
    HalfFacts(high);
    var a, h := low, high;
    ShiftXor(a, h);
    a, h := Shift(a), Half(h);
    ShiftXor(a, h);
    a, h := Shift(a), Half(h);
    ShiftXor(a, h);
    a, h := Shift(a), Half(h);
    ShiftXor(a, h);
    a, h := Shift(a), Half(h);
    ShiftXor(a, h);
    a, h := Shift(a), Half(h);
    ShiftXor(a, h);
    a, h := Shift(a), Half(h);
    ShiftXor(a, h);
    a, h := Shift(a), Half(h);
    ShiftXor(a, h);
  }

  lemma LowHigh(x: bv32)
    ensures Xor(Low(x), High(x)) == x
    ensures Low(High(x)) == 0
  {
  }

  lemma ByteStaysLow(c: bv32, b: bv8)
    ensures Down8(High(Xor(c, Widen(b)))) == Down8(c)
  {
    assert ((c ^ (b as bv32)) & 0xFFFF_FF00) >> 8 == c >> 8;
  }

  /** One table lookup and shift is eight message bits through the register. */
  lemma ByteStep(c: bv32, b: bv8)
    ensures FeedBits(c, BitsOfByte(b)) == Xor(Shifts(Low(Xor(c, Widen(b))), 8), Down8(c))
  {
    hide FeedBits, Shifts, BitsOfByte, Xor, WordOf, Low, High, Down8, Widen;
    FeedBitsIsShifts(c, BitsOfByte(b));
    WordOfByte(b);
    var x := Xor(c, Widen(b));
    LowHigh(x);
    ByteStaysLow(c, b);
    ShiftsOfByte(Low(x), High(x));
  }

  // ----- the constants -----

  /** The polynomial of the standard, x^32 + x^26 + x^23 + x^22 + x^16 + x^12 + x^11 + x^10 + x^8 + x^7
      + x^5 + x^4 + x^2 + x + 1, with the term of degree k at bit 31 - k. */
  lemma PolyOfTheStandard()
    ensures POLY == (1 << 31) | (1 << 30) | (1 << 29) | (1 << 27) | (1 << 26) | (1 << 24) | (1 << 23)
                  | (1 << 21) | (1 << 20) | (1 << 19) | (1 << 15) | (1 << 9) | (1 << 8) | (1 << 5)
  {
  }

  /** One byte of a message, with the register before and after it. */
  lemma FeedByte(c: bv32, message: seq<bv8>, i: nat, next: bv32)
    requires i < |message|
    requires next == Xor(Shift8(Low(Xor(c, Widen(message[i])))), Down8(c))
    ensures FeedBits(c, BitsOf(message[i..])) == FeedBits(next, BitsOf(message[i + 1..]))
  {
    hide FeedBits, BitsOfByte, Shift8, Shifts, Xor, Low, Down8, Widen;
    FeedBitsAppend(c, BitsOfByte(message[i]), BitsOf(message[i + 1..]));
    assert message[i..][1..] == message[i + 1..];
    ByteStep(c, message[i]);
    Unroll(Low(Xor(c, Widen(message[i]))));
  }

  /** The check value every CRC-32 of this kind is known by: the digits one to nine give 0xCBF43926. */
  lemma CheckValue()
    ensures SerialCrc([0x31, 0x32, 0x33, 0x34, 0x35, 0x36, 0x37, 0x38, 0x39], 0) == 0xCBF4_3926
  {
    hide FeedBits, BitsOf;
    var message: seq<bv8> := [0x31, 0x32, 0x33, 0x34, 0x35, 0x36, 0x37, 0x38, 0x39];
    assert message[0..] == message;
    FeedByte(0xFFFF_FFFF, message, 0, 0x7C23_1048);
    FeedByte(0x7C23_1048, message, 1, 0xB0AC_BB32);
    FeedByte(0xB0AC_BB32, message, 2, 0x77B7_9C2D);
    FeedByte(0x77B7_9C2D, message, 3, 0x641C_1F5C);
    FeedByte(0x641C_1F5C, message, 4, 0x340A_C5E3);
    FeedByte(0x340A_C5E3, message, 5, 0xF68D_2C9E);
    FeedByte(0xF68D_2C9E, message, 6, 0xAFFC_9660);
    FeedByte(0xAFFC_9660, message, 7, 0x651F_2550);
    FeedByte(0x651F_2550, message, 8, 0x340B_C6D9);
    EmptyTail(0x340B_C6D9, message);
  }

  // ----- what the checksum promises -----

  /** Resuming from a checksum gives the checksum of the concatenation. */
  lemma CrcResumes(a: seq<bv8>, b: seq<bv8>, crc: bv32)
    ensures SerialCrc(b, SerialCrc(a, crc)) == SerialCrc(a + b, crc)
  {
    hide FeedBits, BitsOf, Xor;
    BitsOfAppend(a, b);
    FeedBitsAppend(Xor(crc, ONES), BitsOf(a), BitsOf(b));
    XorFacts(FeedBits(Xor(crc, ONES), BitsOf(a)), ONES, 0);
  }

  /** Different words of up to 32 bits leave different registers, whatever surrounds them. */
  lemma BurstChangesRegister(c: bv32, pre: seq<bool>, x: seq<bool>, y: seq<bool>, post: seq<bool>)
    requires |x| == |y| <= 32 && x != y
    ensures FeedBits(c, pre + (x + post)) != FeedBits(c, pre + (y + post))
  {
    hide FeedBits, Shifts, Xor, WordOf;
    var d := FeedBits(c, pre);
    FeedBitsAppend(c, pre, x + post);
    FeedBitsAppend(c, pre, y + post);
    FeedBitsAppend(d, x, post);
    FeedBitsAppend(d, y, post);
    if FeedBits(c, pre + (x + post)) == FeedBits(c, pre + (y + post)) {
      FeedBitsInjective(FeedBits(d, x), FeedBits(d, y), post);
      FeedBitsIsShifts(d, x);
      FeedBitsIsShifts(d, y);
      ShiftsInjective(Xor(d, WordOf(x)), Xor(d, WordOf(y)), |x|);
      XorFacts(d, WordOf(x), WordOf(y));
      WordOfInjective(x, y);
    }
  }

  /** Every burst of up to 32 bits is detected, on any bit boundary: equally long, different
      messages that agree outside some 32 consecutive bits have different checksums. */
  lemma BurstDetected(a: seq<bv8>, b: seq<bv8>, crc: bv32, from: nat)
    requires |a| == |b| && a != b
    requires forall j :: 0 <= j < 8 * |a| && !(from <= j < from + 32) ==> BitsOf(a)[j] == BitsOf(b)[j]
    ensures SerialCrc(a, crc) != SerialCrc(b, crc)
  {
    hide FeedBits, BitsOf, Xor;
    var s, t := BitsOf(a), BitsOf(b);
    if s == t {
      BitsOfInjective(a, b);
    } else {
      var lo := if from <= |s| then from else |s|;
      var hi := if from + 32 <= |s| then from + 32 else |s|;
      assert s[..lo] == t[..lo] && s[hi..] == t[hi..];
      Sandwich(s, lo, hi);
      Sandwich(t, lo, hi);
      BurstChangesRegister(Xor(crc, ONES), s[..lo], s[lo..hi], t[lo..hi], s[hi..]);
      XorFacts(FeedBits(Xor(crc, ONES), s), ONES, FeedBits(Xor(crc, ONES), t));
    }
  }

  lemma Sandwich(s: seq<bool>, lo: nat, hi: nat)
    requires lo <= hi <= |s|
    ensures s == s[..lo] + (s[lo..hi] + s[hi..])
  {
  }
}
