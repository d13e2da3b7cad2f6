/** Bit streams as DEFLATE packs them: bytes least significant bit first. */
module BitStream {
  import opened Arithmetic
  import opened Bytes

  type Bits = seq<bool>

  /** The number whose least significant bit comes first. */
  function Value(b: Bits): nat {
    if b == [] then 0 else (if b[0] then 1 else 0) + 2 * Value(b[1..])
  }

  /** The n low bits of v, least significant first. */
  function LowBits(v: nat, n: nat): (b: Bits)
    ensures |b| == n
  {
    if n == 0 then [] else [v % 2 == 1] + LowBits(v / 2, n - 1)
  }

  lemma {:induction false} ValueOfLowBits(v: nat, n: nat)
    requires v < Pow2(n)
    ensures Value(LowBits(v, n)) == v
  {
    if n > 0 {
      var b := LowBits(v, n);
      assert b[1..] == LowBits(v / 2, n - 1);
      ValueOfLowBits(v / 2, n - 1);
    }
  }

  lemma {:induction false} ValueBound(b: Bits)
    ensures Value(b) < Pow2(|b|)
  {
    if b != [] { ValueBound(b[1..]); }
  }

  lemma {:induction false} LowBitsOfValue(b: Bits)
    ensures LowBits(Value(b), |b|) == b
  {
    if b != [] {
      LowBitsOfValue(b[1..]);
      assert b == [b[0]] + b[1..];
    }
  }

  lemma {:induction false} ValueSnoc(b: Bits, x: bool)
    ensures Value(b + [x]) == Value(b) + if x then Pow2(|b|) else 0
  {
    if b == [] {
      assert [x][1..] == [];
      assert b + [x] == [x];
      assert Value([x]) == (if x then 1 else 0) + 2 * Value([x][1..]);
    } else {
      ValueSnoc(b[1..], x);
      assert (b + [x])[1..] == b[1..] + [x];
    }
  }

  function ByteBits(x: byte): (b: Bits)
    ensures |b| == 8
  {
    LowBits(x, 8)
  }

  /** A byte string as one bit stream. */
  function BytesToBits(d: seq<byte>): (b: Bits)
    ensures |b| == 8 * |d|
  {
    if d == [] then [] else ByteBits(d[0]) + BytesToBits(d[1..])
  }

  lemma {:induction false} BytesToBitsAppend(a: seq<byte>, b: seq<byte>)
    ensures BytesToBits(a + b) == BytesToBits(a) + BytesToBits(b)
  {
    hide ByteBits;
    if a == [] {
      assert a + b == b;
    } else {
      BytesToBitsAppend(a[1..], b);
      assert (a + b)[1..] == a[1..] + b;
      Reassociate(ByteBits(a[0]), BytesToBits(a[1..]), BytesToBits(b));
    }
  }

  lemma {:induction false} Reassociate(a: Bits, b: Bits, c: Bits)
    ensures a + b + c == a + (b + c)
  {}

  lemma {:induction false} LowBitsFirst(v: nat, n: nat)
    requires n > 0
    ensures LowBits(v, n) == [v % 2 == 1] + LowBits(v / 2, n - 1)
  {}

  lemma {:induction false} FirstByteBits(d: seq<byte>, i: nat)
    requires i < |d|
    ensures BytesToBits(d[i..]) == LowBits(d[i], 8) + BytesToBits(d[i + 1..])
  {
    hide LowBits;
    assert d[i..][1..] == d[i + 1..];
  }

  lemma Pow2Eight()
    ensures Pow2(8) == 256
  {
    assert Pow2(4) == 16;
  }

  /** The bytes of a bit stream of whole bytes. */
  function BitsToBytes(b: Bits): (d: seq<byte>)
    requires |b| % 8 == 0
    ensures |d| == |b| / 8
  {
    if b == [] then []
    else
      ValueBound(b[..8]); Pow2Eight();
      [Value(b[..8])] + BitsToBytes(b[8..])
  }

  lemma {:induction false} BitsToBytesToBits(b: Bits)
    requires |b| % 8 == 0
    ensures BytesToBits(BitsToBytes(b)) == b
  {
    if b != [] {
      BitsToBytesToBits(b[8..]);
      LowBitsOfValue(b[..8]);
      assert b == b[..8] + b[8..];
      assert BitsToBytes(b)[1..] == BitsToBytes(b[8..]);
    }
  }

  lemma {:induction false} BytesToBitsToBytes(d: seq<byte>)
    ensures BitsToBytes(BytesToBits(d)) == d
  {
    if d != [] {
      BytesToBitsToBytes(d[1..]);
      var b := BytesToBits(d);
      assert b[..8] == ByteBits(d[0]) && b[8..] == BytesToBits(d[1..]);
      Pow2Eight();
      ValueOfLowBits(d[0], 8);
    }
  }

  /** Drop the bits left in a partly read byte of a stream of whole bytes. */
  function Aligned(b: Bits): Bits { b[|b| % 8..] }

  lemma {:induction false} NoBits(v: nat)
    ensures LowBits(v, 0) == []
  {}

  lemma {:induction false} NoBytes(d: seq<byte>)
    requires d == []
    ensures BytesToBits(d) == []
  {}

  // ----- The reader -----

  class BitReader {
    const data: seq<byte>
    var pos: nat
    var cur: nat
    var nbits: nat
    var ok: bool

    ghost predicate Valid()
      reads this
    {
      pos <= |data| && nbits < 8
    }

    /** The bits not read yet. */
    ghost function Rest(): Bits
      requires Valid()
      reads this
    {
      LowBits(cur, nbits) + BytesToBits(data[pos..])
    }

    constructor (d: seq<byte>)
      ensures Valid() && data == d && Rest() == BytesToBits(d) && pos == 0 && ok
    {
      data, pos, cur, nbits, ok := d, 0, 0, 0, true;
      new;
      assert data[0..] == d;
    }

    /** The next bit, or -1 when the input is exhausted. */
    method Bit() returns (b: int)
      requires Valid()
      modifies this
      ensures Valid()
      ensures old(Rest()) == [] ==> b == -1 && Rest() == []
      ensures old(Rest()) != [] ==> b == (if old(Rest())[0] then 1 else 0) && Rest() == old(Rest())[1..]
    {
      hide LowBits, BytesToBits;
      ghost var was := Rest();
      if nbits == 0 {
        NoBits(cur);
        if pos >= |data| {
          NoBytes(data[pos..]);
          ok := false;
          return -1;
        }
        FirstByteBits(data, pos);
        cur := data[pos];
        pos := pos + 1;
        b := cur % 2;
        LowBitsFirst(cur, 8);
        nbits := 7;
      } else {
        b := cur % 2;
        LowBitsFirst(cur, nbits);
        nbits := nbits - 1;
      }
      cur := cur / 2;
      Reassociate([b == 1], LowBits(cur, nbits), BytesToBits(data[pos..]));
      assert was == [b == 1] + Rest();
    }

    /** n bits as a number, least significant first, or -1 when fewer are left. */
    method ReadBits(n: nat) returns (v: int)
      requires Valid()
      modifies this
      ensures Valid()
      ensures |old(Rest())| < n ==> v == -1 && Rest() == []
      ensures n <= |old(Rest())| ==> v == Value(old(Rest())[..n]) && Rest() == old(Rest())[n..]
    {
      ghost var was := Rest();
      v := 0;
      for i := 0 to n
        invariant Valid() && i <= |was|
        invariant Rest() == was[i..] && v == Value(was[..i])
      {
        var b := Bit();
        if b < 0 { return -1; }
        ValueSnoc(was[..i], was[i]);
        assert was[..i + 1] == was[..i] + [was[i]];
        v := v + b * Pow2(i);  // bit i of v is still clear, so adding is or-ing
      }
    }

    method Align()
      requires Valid()
      modifies this`nbits
      ensures Valid() && Rest() == Aligned(old(Rest())) == BytesToBits(data[pos..])
    {
      nbits := 0;
    }

    method Seek(p: nat)
      requires Valid() && p <= |data|
      modifies this`pos, this`nbits
      ensures Valid() && Rest() == BytesToBits(data[p..]) && pos == p
    {
      pos, nbits := p, 0;
    }
  }
}
