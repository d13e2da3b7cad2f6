/** Byte strings, little-endian numbers, and the writer and reader every stored format goes through. */
module Bytes {
  import opened Wrappers

  type byte = x: int | 0 <= x < 256

  // ----- Little-endian numbers -----

  ghost function Pow256(k: nat): nat { if k == 0 then 1 else 256 * Pow256(k - 1) }

  /** The k low bytes of n, lowest first; higher bytes are cut off, as a narrowing cast does. */
  function Le(n: nat, k: nat): (s: seq<byte>)
    ensures |s| == k
    decreases k
  {
    if k == 0 then [] else [n % 256] + Le(n / 256, k - 1)
  }

  function FromLe(s: seq<byte>): nat
    decreases s
  {
    if s == [] then 0 else s[0] + 256 * FromLe(s[1..])
  }

  lemma {:induction false} FromLeOfLe(n: nat, k: nat)
    requires n < Pow256(k)
    ensures FromLe(Le(n, k)) == n
    decreases k
  {
    if k > 0 {
      FromLeOfLe(n / 256, k - 1);
      assert Le(n, k)[1..] == Le(n / 256, k - 1);
    }
  }

  lemma {:induction false} LeOfFromLe(s: seq<byte>)
    ensures Le(FromLe(s), |s|) == s
    decreases s
  {
    if s != [] {
      LeOfFromLe(s[1..]);
      assert s == [s[0]] + s[1..];
      assert (s[0] + 256 * FromLe(s[1..])) / 256 == FromLe(s[1..]);
    }
  }

  lemma {:induction false} Powers()
    ensures Pow256(1) == 0x100 && Pow256(2) == 0x1_0000 && Pow256(4) == 0x1_0000_0000
    ensures Pow256(8) == 0x1_0000_0000_0000_0000
  {
    assert Pow256(3) == 0x100_0000;
    assert Pow256(5) == 0x100_0000_0000 && Pow256(6) == 0x1_0000_0000_0000 && Pow256(7) == 0x100_0000_0000_0000;
  }

  // ----- Reading back, as functions -----

  function ReadNum(s: seq<byte>, k: nat): Option<(nat, seq<byte>)> {
    if |s| < k then None else Some((FromLe(s[..k]), s[k..]))
  }

  function ReadBytes(s: seq<byte>, n: nat): Option<(seq<byte>, seq<byte>)> {
    if |s| < n then None else Some((s[..n], s[n..]))
  }

  /** A string: its length as four bytes, then its bytes. */
  function Str(t: seq<byte>): seq<byte> { Le(|t|, 4) + t }

  function ReadStr(s: seq<byte>): Option<(seq<byte>, seq<byte>)> {
    match ReadNum(s, 4)
    case None => None
    case Some((n, rest)) => ReadBytes(rest, n)
  }

  lemma {:induction false} ReadNumOf(n: nat, k: nat, rest: seq<byte>)
    requires n < Pow256(k)
    ensures ReadNum(Le(n, k) + rest, k) == Some((n, rest))
  {
    FromLeOfLe(n, k);
    assert (Le(n, k) + rest)[..k] == Le(n, k);
  }

  lemma {:induction false} ReadStrOf(t: seq<byte>, rest: seq<byte>)
    requires |t| < Pow256(4)
    ensures ReadStr(Str(t) + rest) == Some((t, rest))
  {
    ReadNumOf(|t|, 4, t + rest);
    assert Str(t) + rest == Le(|t|, 4) + (t + rest);
  }

  // ----- Writer and reader -----

  class Writer {
    var buf: seq<byte>

    constructor ()
      ensures buf == []
    {
      buf := [];
    }

    method Num(n: nat, k: nat)
      modifies this
      ensures buf == old(buf) + Le(n, k)
    {
      buf := buf + Le(n, k);
    }

    method Raw(s: seq<byte>)
      modifies this
      ensures buf == old(buf) + s
    {
      buf := buf + s;
    }

    method Text(s: seq<byte>)
      modifies this
      ensures buf == old(buf) + Str(s)
    {
      Num(|s|, 4);
      Raw(s);
    }
  }

  class Reader {
    var rest: seq<byte>

    constructor (data: seq<byte>)
      ensures rest == data
    {
      rest := data;
    }

    method Num(k: nat) returns (r: Option<nat>)
      modifies this
      ensures match ReadNum(old(rest), k)
        case None => r == None && rest == old(rest)
        case Some((n, left)) => r == Some(n) && rest == left
    {
      if |rest| < k { return None; }
      r := Some(FromLe(rest[..k]));
      rest := rest[k..];
    }

    method Raw(n: nat) returns (r: Option<seq<byte>>)
      modifies this
      ensures match ReadBytes(old(rest), n)
        case None => r == None && rest == old(rest)
        case Some((s, left)) => r == Some(s) && rest == left
    {
      if |rest| < n { return None; }
      r := Some(rest[..n]);
      rest := rest[n..];
    }

    method Text() returns (r: Option<seq<byte>>)
      modifies this
      ensures match ReadStr(old(rest))
        case None => r == None
        case Some((s, left)) => r == Some(s) && rest == left
    {
      var n := Num(4);
      if n == None { return None; }
      r := Raw(n.value);
    }
  }
}
