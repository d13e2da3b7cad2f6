/** CRC-32 (IEEE 802.3, reflected): the table-driven loop and the bitwise division it stands for. */
module Crc32 {
  import opened Arithmetic
  import opened Bytes

  const POLYNOMIAL: bv32 := 0xEDB8_8320
  const ALL_ONES: bv32 := 0xFFFF_FFFF

  // ----- Bit by bit -----

  function Xor(a: bv32, b: bv32): bv32 { a ^ b }
  function Half(c: bv32): bv32 { c >> 1 }
  function LowBit(c: bv32): bv32 { c & 1 }
  function HighPart(c: bv32): bv32 { c >> 8 }
  function LowByte(c: bv32): bv32 { c & 0xFF }

  /** The k low binary digits of n as a word. */
  function Digits(n: nat, k: nat): bv32
    decreases k
  {
    if k == 0 then 0 else Append(Digits(n / 2, k - 1), n % 2 == 1)
  }

  function Append(c: bv32, digit: bool): bv32 { (c << 1) | if digit then 1 else 0 }

  /** A byte as a word. */
  function Word(b: byte): bv32 { Digits(b, 8) }

  /** Shift one bit out of the remainder; a 1 shifted out subtracts the polynomial. */
  function Shift(c: bv32): bv32 {
    if LowBit(c) == 1 then Xor(POLYNOMIAL, Half(c)) else Half(c)
  }

  function ShiftTimes(c: bv32, k: nat): bv32
    decreases k
  {
    if k == 0 then c else ShiftTimes(Shift(c), k - 1)
  }

  /** The reflected division over the k low bits of b, lowest first: bring in one message bit, then shift. */
  function DivideBits(rem: bv32, b: bv32, k: nat): bv32
    decreases k
  {
    if k == 0 then rem else DivideBits(Shift(Xor(rem, LowBit(b))), Half(b), k - 1)
  }

  /** The division over a whole message. */
  function Divide(rem: bv32, data: seq<byte>): bv32
    decreases data
  {
    if data == [] then rem else Divide(DivideBits(rem, Word(data[0]), 8), data[1..])
  }

  /** The checksum of the standard: the remainder of the message, started and finished with all bits flipped. */
  function Crc(data: seq<byte>): bv32 { Xor(Divide(ALL_ONES, data), ALL_ONES) }

  // ----- Algebra of the shift -----

  lemma {:induction false} XorAssociates(x: bv32, y: bv32, z: bv32)
    ensures Xor(Xor(x, y), z) == Xor(x, Xor(y, z))
  {}

  lemma {:induction false} XorCommutes(x: bv32, y: bv32)
    ensures Xor(x, y) == Xor(y, x)
  {}

  lemma {:induction false} XorCancels(x: bv32, y: bv32)
    ensures Xor(x, Xor(x, y)) == y
  {}

  lemma {:induction false} XorSorts(p: bv32, x: bv32, y: bv32)
    ensures Xor(Xor(p, x), y) == Xor(p, Xor(x, y)) == Xor(x, Xor(p, y))
    ensures Xor(Xor(p, x), Xor(p, y)) == Xor(x, y)
  {
    hide Xor;
    XorAssociates(p, x, y);
    XorAssociates(x, p, y);
    XorCommutes(x, p);
    XorAssociates(p, x, Xor(p, y));
    XorCancels(p, Xor(x, y));
  }

  lemma {:induction false} XorHalves(a: bv32, b: bv32)
    ensures Half(Xor(a, b)) == Xor(Half(a), Half(b))
    ensures LowBit(a) == 0 || LowBit(a) == 1
    ensures LowBit(Xor(a, b)) == if LowBit(a) == LowBit(b) then 0 else 1
  {}

  /** Shifting is linear over exclusive or. */
  lemma {:induction false} ShiftLinear(a: bv32, b: bv32)
    ensures Shift(Xor(a, b)) == Xor(Shift(a), Shift(b))
  {
    hide Xor, Half, LowBit;
    XorHalves(a, b);
    XorHalves(b, a);
    XorSorts(POLYNOMIAL, Half(a), Half(b));
  }

  lemma {:induction false} ShiftTimesLinear(a: bv32, b: bv32, k: nat)
    ensures ShiftTimes(Xor(a, b), k) == Xor(ShiftTimes(a, k), ShiftTimes(b, k))
    decreases k
  {
    hide Xor, Shift;
    if k > 0 {
      ShiftLinear(a, b);
      ShiftTimesLinear(Shift(a), Shift(b), k - 1);
    }
  }

  /** The top bit of the polynomial is set, so a shift can be undone. */
  lemma {:induction false} ShiftInjective(a: bv32, b: bv32)
    requires Shift(a) == Shift(b)
    ensures a == b
  {}

  lemma {:induction false} ShiftTimesInjective(a: bv32, b: bv32, k: nat)
    requires ShiftTimes(a, k) == ShiftTimes(b, k)
    ensures a == b
    decreases k
  {
    hide Shift;
    if k > 0 {
      ShiftTimesInjective(Shift(a), Shift(b), k - 1);
      ShiftInjective(a, b);
    }
  }

  // ----- A whole byte at once -----

  /** b has no bit from position k on. */
  ghost predicate Narrow(b: bv32, k: nat)
    decreases k
  {
    if k == 0 then b == 0 else Narrow(Half(b), k - 1)
  }

  lemma {:induction false} SplitLowBit(rem: bv32, b: bv32)
    ensures Shift(Xor(rem, b)) == Xor(Shift(Xor(rem, LowBit(b))), Half(b))
  {
    hide Xor, Half, LowBit;
    var rest := Xor(LowBit(b), b);
    XorCancels(LowBit(b), b);
    XorAssociates(rem, LowBit(b), rest);
    ShiftLinear(Xor(rem, LowBit(b)), rest);
    LowBitCleared(b);
  }

  lemma {:induction false} LowBitCleared(b: bv32)
    ensures LowBit(Xor(LowBit(b), b)) == 0 && Half(Xor(LowBit(b), b)) == Half(b)
  {}

  lemma {:induction false} XorZero(x: bv32)
    ensures Xor(x, 0) == x
  {}

  /** Bringing in k bits one at a time is bringing them in together and shifting k times. */
  lemma {:induction false} DivideBitsIsShift(rem: bv32, b: bv32, k: nat)
    requires Narrow(b, k)
    ensures DivideBits(rem, b, k) == ShiftTimes(Xor(rem, b), k)
    decreases k
  {
    hide Xor, Shift, Half, LowBit;
    if k > 0 {
      DivideBitsIsShift(Shift(Xor(rem, LowBit(b))), Half(b), k - 1);
      SplitLowBit(rem, b);
    } else {
      XorZero(rem);
    }
  }

  lemma {:induction false} BytesAreNarrow(b: bv32)
    requires b <= 0xFF
    ensures Narrow(b, 8)
  {
    HalvesOfByte(b);
    NarrowEight(b);
  }

  function Half4(b: bv32): bv32 { Half(Half(Half(Half(b)))) }

  lemma {:induction false} HalvesOfByte(b: bv32)
    requires b <= 0xFF
    ensures Half4(Half4(b)) == 0
  {}

  lemma {:induction false} NarrowEight(b: bv32)
    ensures Narrow(b, 8) <==> Half4(Half4(b)) == 0
  {
    hide Half;
    NarrowFour(b, 4);
    NarrowFour(Half4(b), 0);
  }

  lemma {:induction false} NarrowFour(b: bv32, k: nat)
    ensures Narrow(b, k + 4) <==> Narrow(Half4(b), k)
  {
    hide Half;
    assert Narrow(b, k + 4) <==> Narrow(Half(Half(b)), k + 2);
  }

  /** Eight shifts of a word whose low byte is empty just move it down. */
  lemma {:induction false} EmptyByteShifts(c: bv32)
    requires LowByte(c) == 0
    ensures ShiftTimes(c, 8) == HighPart(c)
  {
    hide Half, LowBit, LowByte, HighPart;
    HalvesAreEven(c);
    EvenFour(c, 4);
    EvenFour(Half4(c), 0);
  }

  lemma {:induction false} HalvesAreEven(c: bv32)
    requires LowByte(c) == 0
    ensures Half4(Half4(c)) == HighPart(c)
    ensures LowBit(c) == LowBit(Half(c)) == LowBit(Half(Half(c))) == LowBit(Half(Half(Half(c)))) == 0
    ensures var d := Half4(c);
      LowBit(d) == LowBit(Half(d)) == LowBit(Half(Half(d))) == LowBit(Half(Half(Half(d)))) == 0
  {}

  lemma {:induction false} EvenFour(c: bv32, k: nat)
    requires LowBit(c) == LowBit(Half(c)) == LowBit(Half(Half(c))) == LowBit(Half(Half(Half(c)))) == 0
    ensures ShiftTimes(c, k + 4) == ShiftTimes(Half4(c), k)
  {
    hide Half, LowBit;
    assert ShiftTimes(c, k + 4) == ShiftTimes(Half(Half(c)), k + 2);
  }

  // ----- The table -----

  /** Entry i of the table: the remainder of the byte i. */
  function TableEntry(i: bv32): bv32 { ShiftTimes(i, 8) }

  lemma {:induction false} SplitByte(c: bv32)
    ensures c == Xor(LowByte(c), Xor(c, LowByte(c)))
    ensures LowByte(Xor(c, LowByte(c))) == 0
    ensures HighPart(Xor(c, LowByte(c))) == HighPart(c)
  {}

  lemma {:induction false} ByteOnTop(crc: bv32, b: bv32)
    requires b <= 0xFF
    ensures HighPart(Xor(crc, b)) == HighPart(crc)
  {}

  /** One table step divides by a whole byte. */
  lemma {:induction false} TableStep(crc: bv32, b: bv32)
    requires b <= 0xFF
    ensures Xor(TableEntry(LowByte(Xor(crc, b))), HighPart(crc)) == DivideBits(crc, b, 8)
  {
    hide Xor, LowByte, HighPart, ShiftTimes, DivideBits, Narrow;
    var c := Xor(crc, b);
    BytesAreNarrow(b);
    DivideBitsIsShift(crc, b, 8);
    SplitByte(c);
    ShiftTimesLinear(LowByte(c), Xor(c, LowByte(c)), 8);
    EmptyByteShifts(Xor(c, LowByte(c)));
    ByteOnTop(crc, b);
  }

  /** The largest word of k digits. */
  ghost function Ones(k: nat): bv32 { if k == 0 then 0 else Append(Ones(k - 1), true) }

  lemma {:induction false} AppendBound(c: bv32, digit: bool, bound: bv32)
    requires c <= bound <= 0x7F
    ensures Append(c, digit) <= Append(bound, true)
  {
    var x, y := c as bv8, bound as bv8;
    assert (x << 1) <= (y << 1);
  }

  lemma {:induction false} AppendInjective(c: bv32, p: bool, d: bv32, q: bool)
    requires c <= 0x7FFF_FFFF && d <= 0x7FFF_FFFF && Append(c, p) == Append(d, q)
    ensures c == d && p == q
  {}

  lemma {:induction false} OnesOfByte(k: nat)
    requires k <= 8
    ensures k < 8 ==> Ones(k) <= 0x7F
    ensures k == 8 ==> Ones(k) == 0xFF
  {
    assert Ones(1) == 1 && Ones(2) == 3 && Ones(3) == 7;
    assert Ones(4) == 0xF && Ones(5) == 0x1F && Ones(6) == 0x3F;
    assert Ones(7) == 0x7F;
  }

  lemma {:induction false} DigitsStep(n: nat, k: nat)
    ensures Digits(n, k) == if k == 0 then 0 else Append(Digits(n / 2, k - 1), n % 2 == 1)
    ensures Ones(k) == if k == 0 then 0 else Append(Ones(k - 1), true)
  {}

  lemma {:induction false} DigitsBound(n: nat, k: nat)
    requires k <= 8
    ensures Digits(n, k) <= Ones(k)
    decreases k
  {
    hide Append, Digits, Ones;
    DigitsStep(n, k);
    if k > 0 {
      OnesOfByte(k - 1);
      DigitsBound(n / 2, k - 1);
      AppendBound(Digits(n / 2, k - 1), n % 2 == 1, Ones(k - 1));
    }
  }

  lemma {:induction false} DigitsInjective(a: nat, b: nat, k: nat)
    requires k <= 8 && a < Pow2(k) && b < Pow2(k) && Digits(a, k) == Digits(b, k)
    ensures a == b
    decreases k
  {
    hide Append, Ones;
    if k > 0 {
      OnesOfByte(k - 1);
      DigitsBound(a / 2, k - 1);
      DigitsBound(b / 2, k - 1);
      AppendInjective(Digits(a / 2, k - 1), a % 2 == 1, Digits(b / 2, k - 1), b % 2 == 1);
      DigitsInjective(a / 2, b / 2, k - 1);
    }
  }

  lemma {:induction false} WordIsByte(b: byte)
    ensures Word(b) <= 0xFF
  {
    OnesOfByte(8);
    DigitsBound(b, 8);
  }

  lemma {:induction false} WordInjective(a: byte, b: byte)
    requires Word(a) == Word(b)
    ensures a == b
  {
    assert Pow2(4) == 16;
    DigitsInjective(a, b, 8);
  }

  /** The 256 entries, each by eight conditional shifts. */
  method BuildTable() returns (table: array<bv32>)
    ensures fresh(table) && table.Length == 256
    ensures forall i: byte :: table[i] == TableEntry(i as bv32)
  {
    hide TableEntry;
    table := new bv32[256](_ => 0);
    for i := 0 to 256
      invariant forall j: byte :: j < i ==> table[j] == TableEntry(j as bv32)
    {
      table[i] := ShiftEight(i as bv32);
    }
  }

  method ShiftEight(i: bv32) returns (c: bv32)
    ensures c == TableEntry(i)
  {
    hide Shift;
    c := i;
    for k := 0 to 8
      invariant ShiftTimes(c, 8 - k) == TableEntry(i)
    {
      c := Shift(c);
    }
  }

  /** The checksum loop: one table lookup per byte. */
  method Checksum(data: seq<byte>) returns (r: bv32)
    ensures r == Crc(data)
  {
    hide Xor, Word, LowByte, HighPart, DivideBits, TableEntry;
    var table := BuildTable();
    var crc := ALL_ONES;
    for i := 0 to |data|
      invariant Divide(crc, data[i..]) == Divide(ALL_ONES, data)
      invariant forall j: byte :: table[j] == TableEntry(j as bv32)
    {
      assert data[i..][0] == data[i] && data[i..][1..] == data[i + 1..];
      WordIsByte(data[i]);
      TableStep(crc, Word(data[i]));
      LowByteSmall(Xor(crc, Word(data[i])));
      var at := Index(LowByte(Xor(crc, Word(data[i]))));
      crc := Xor(table[at], HighPart(crc));
    }
    r := Xor(crc, ALL_ONES);
  }

  lemma {:induction false} LowByteSmall(c: bv32)
    ensures LowByte(c) <= 0xFF
  {}

  /** The table index of a low byte. */
  function Index(c: bv32): (i: byte)
    requires c <= 0xFF
    ensures i as bv32 == c
  {
    c as int
  }

  // ----- Detecting a changed byte -----

  lemma {:induction false} XorInjective(p: bv32, a: bv32, b: bv32)
    ensures Xor(p, a) == Xor(p, b) ==> a == b
    ensures Xor(a, p) == Xor(b, p) ==> a == b
  {}

  /** Different remainders stay different whatever the same bytes after them. */
  lemma {:induction false} DivideInjective(a: bv32, b: bv32, data: seq<byte>)
    requires Divide(a, data) == Divide(b, data)
    ensures a == b
    decreases data
  {
    hide Xor, Word, DivideBits, ShiftTimes;
    if data != [] {
      DivideInjective(DivideBits(a, Word(data[0]), 8), DivideBits(b, Word(data[0]), 8), data[1..]);
      ByteStepInjective(a, b, data[0]);
    }
  }

  lemma {:induction false} ByteStepInjective(a: bv32, b: bv32, x: byte)
    requires DivideBits(a, Word(x), 8) == DivideBits(b, Word(x), 8)
    ensures a == b
  {
    hide Xor, Word, DivideBits, ShiftTimes, Narrow;
    WordIsByte(x);
    BytesAreNarrow(Word(x));
    DivideBitsIsShift(a, Word(x), 8);
    DivideBitsIsShift(b, Word(x), 8);
    ShiftTimesInjective(Xor(a, Word(x)), Xor(b, Word(x)), 8);
    XorInjective(Word(x), a, b);
  }

  lemma {:induction false} DifferentBytes(rem: bv32, x: byte, y: byte)
    requires DivideBits(rem, Word(x), 8) == DivideBits(rem, Word(y), 8)
    ensures x == y
  {
    hide Xor, Word, DivideBits, ShiftTimes, Narrow;
    WordIsByte(x);
    WordIsByte(y);
    BytesAreNarrow(Word(x));
    BytesAreNarrow(Word(y));
    DivideBitsIsShift(rem, Word(x), 8);
    DivideBitsIsShift(rem, Word(y), 8);
    ShiftTimesInjective(Xor(rem, Word(x)), Xor(rem, Word(y)), 8);
    XorInjective(rem, Word(x), Word(y));
    WordInjective(x, y);
  }

  lemma {:induction false} DivideAt(rem: bv32, data: seq<byte>, i: nat, x: byte, y: byte)
    requires i < |data| && Divide(rem, data[i := x]) == Divide(rem, data[i := y])
    ensures x == y
    decreases data
  {
    hide Word, DivideBits;
    if i == 0 {
      assert data[0 := x][1..] == data[1..] && data[0 := y][1..] == data[1..];
      DivideInjective(DivideBits(rem, Word(x), 8), DivideBits(rem, Word(y), 8), data[1..]);
      DifferentBytes(rem, x, y);
    } else {
      assert data[i := x][1..] == data[1..][i - 1 := x] && data[i := y][1..] == data[1..][i - 1 := y];
      DivideAt(DivideBits(rem, Word(data[0]), 8), data[1..], i - 1, x, y);
    }
  }

  /** Changing any one byte changes the checksum. */
  lemma {:induction false} OneByteChangesCrc(data: seq<byte>, i: nat, x: byte)
    requires i < |data| && x != data[i]
    ensures Crc(data[i := x]) != Crc(data)
  {
    hide Xor;
    assert data[i := data[i]] == data;
    XorInjective(ALL_ONES, Divide(ALL_ONES, data[i := x]), Divide(ALL_ONES, data));
    if Divide(ALL_ONES, data[i := x]) == Divide(ALL_ONES, data) {
      DivideAt(ALL_ONES, data, i, x, data[i]);
    }
  }

  function FromNumber(n: nat): bv32
    requires n < 0x1_0000_0000
  {
    n as bv32
  }

  /** The checksum as a number, the form it is stored in. */
  function Number(c: bv32): (n: nat)
    ensures n < 0x1_0000_0000 && FromNumber(n) == c
  {
    c as int
  }

  lemma {:induction false} NumberInjective(c: bv32, d: bv32)
    requires Number(c) == Number(d)
    ensures c == d
  {
    hide Number, FromNumber;
  }

  /** The stored checksum of a byte string. */
  function Crc32Of(data: seq<byte>): (n: nat)
    ensures n < 0x1_0000_0000
  {
    Number(Crc(data))
  }

  /** Changing any one byte changes the stored checksum. */
  lemma {:induction false} OneByteChangesCrc32(data: seq<byte>, i: nat, x: byte)
    requires i < |data| && x != data[i]
    ensures Crc32Of(data[i := x]) != Crc32Of(data)
  {
    hide Crc, Number;
    OneByteChangesCrc(data, i, x);
    if Crc32Of(data[i := x]) == Crc32Of(data) {
      NumberInjective(Crc(data[i := x]), Crc(data));
    }
  }

  // ----- The check value of the standard -----

  /** The word of an ASCII digit from its binary digits. */
  lemma {:induction false} DigitWord(d: nat, b3: bool, b2: bool, b1: bool, b0: bool)
    requires d == (if b3 then 8 else 0) + (if b2 then 4 else 0) + (if b1 then 2 else 0) + (if b0 then 1 else 0)
    ensures Word(48 + d) == Append(Append(Append(Append(3, b3), b2), b1), b0)
  {
    hide Append, Digits;
    ThreeDigits();
    var m := 2 * 3 + if b3 then 1 else 0;
    var n := 2 * m + if b2 then 1 else 0;
    var l := 2 * n + if b1 then 1 else 0;
    DigitsOf(3, b3, 5);
    DigitsOf(m, b2, 6);
    DigitsOf(n, b1, 7);
    DigitsOf(l, b0, 8);
  }

  lemma {:induction false} DigitsOf(n: nat, digit: bool, k: nat)
    requires k > 0
    ensures Digits(2 * n + if digit then 1 else 0, k) == Append(Digits(n, k - 1), digit)
  {
    hide Append, Digits;
    var m := 2 * n + if digit then 1 else 0;
    DigitsNext(m, k);
    assert m / 2 == n && (m % 2 == 1) == digit;
  }

  lemma {:induction false} DigitsNext(n: nat, k: nat)
    requires k > 0
    ensures Digits(n, k) == Append(Digits(n / 2, k - 1), n % 2 == 1)
  {}

  lemma {:induction false} ThreeDigits()
    ensures Digits(3, 4) == 3
  {
    DigitsOf(1, true, 4);
    DigitsOf(0, true, 3);
    DigitsOf(0, false, 2);
    DigitsOf(0, false, 1);
  }

  lemma {:induction false} CheckWords()
    ensures Word(0x31) == 0x31 && Word(0x32) == 0x32 && Word(0x33) == 0x33 && Word(0x34) == 0x34 && Word(0x35) == 0x35
    ensures Word(0x36) == 0x36 && Word(0x37) == 0x37 && Word(0x38) == 0x38 && Word(0x39) == 0x39
  {
    hide Word;
    DigitWord(1, false, false, false, true);
    DigitWord(2, false, false, true, false);
    DigitWord(3, false, false, true, true);
    DigitWord(4, false, true, false, false);
    DigitWord(5, false, true, false, true);
    DigitWord(6, false, true, true, false);
    DigitWord(7, false, true, true, true);
    DigitWord(8, true, false, false, false);
    DigitWord(9, true, false, false, true);
  }

  lemma {:induction false} CheckStep1()
    ensures DivideBits(0xFFFF_FFFF, 0x31, 8) == 0x7C23_1048
  {}

  lemma {:induction false} CheckStep2()
    ensures DivideBits(0x7C23_1048, 0x32, 8) == 0xB0AC_BB32
  {}

  lemma {:induction false} CheckStep3()
    ensures DivideBits(0xB0AC_BB32, 0x33, 8) == 0x77B7_9C2D
  {}

  lemma {:induction false} CheckStep4()
    ensures DivideBits(0x77B7_9C2D, 0x34, 8) == 0x641C_1F5C
  {}

  lemma {:induction false} CheckStep5()
    ensures DivideBits(0x641C_1F5C, 0x35, 8) == 0x340A_C5E3
  {}

  lemma {:induction false} CheckStep6()
    ensures DivideBits(0x340A_C5E3, 0x36, 8) == 0xF68D_2C9E
  {}

  lemma {:induction false} CheckStep7()
    ensures DivideBits(0xF68D_2C9E, 0x37, 8) == 0xAFFC_9660
  {}

  lemma {:induction false} CheckStep8()
    ensures DivideBits(0xAFFC_9660, 0x38, 8) == 0x651F_2550
  {}

  lemma {:induction false} CheckStep9()
    ensures DivideBits(0x651F_2550, 0x39, 8) == 0x340B_C6D9
  {}

  /** The checksum of the ASCII string "123456789" is CBF43926, the check value that identifies this CRC. */
  lemma {:induction false} CheckValue()
    ensures Crc32Of([0x31, 0x32, 0x33, 0x34, 0x35, 0x36, 0x37, 0x38, 0x39]) == 0xCBF4_3926
  {
    hide DivideBits, Word;
    CheckWords();
    CheckStep1(); CheckStep2(); CheckStep3(); CheckStep4(); CheckStep5();
    CheckStep6(); CheckStep7(); CheckStep8(); CheckStep9();
    var data: seq<byte> := [0x31, 0x32, 0x33, 0x34, 0x35, 0x36, 0x37, 0x38, 0x39];
    DivideNext(0xFFFF_FFFF, data, 0);
    DivideNext(0x7C23_1048, data, 1);
    DivideNext(0xB0AC_BB32, data, 2);
    DivideNext(0x77B7_9C2D, data, 3);
    DivideNext(0x641C_1F5C, data, 4);
    DivideNext(0x340A_C5E3, data, 5);
    DivideNext(0xF68D_2C9E, data, 6);
    DivideNext(0xAFFC_9660, data, 7);
    DivideNext(0x651F_2550, data, 8);
    assert data[0..] == data;
    assert Divide(0x340B_C6D9, data[9..]) == 0x340B_C6D9;
    CheckNumber();
  }

  lemma {:induction false} CheckNumber()
    ensures Xor(0x340B_C6D9, ALL_ONES) == 0xCBF4_3926 && Number(0xCBF4_3926) == 0xCBF4_3926
  {}

  lemma {:induction false} DivideNext(rem: bv32, data: seq<byte>, i: nat)
    requires i < |data|
    ensures Divide(rem, data[i..]) == Divide(DivideBits(rem, Word(data[i]), 8), data[i + 1..])
  {
    assert data[i..][1..] == data[i + 1..];
  }
}
