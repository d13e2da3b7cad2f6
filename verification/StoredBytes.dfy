/** The stored formats by their bytes. */
module StoredBytes {
  import opened Bytes
  import W = Wal
  import C = Container

  lemma {:induction false} Small(n: nat)
    requires n < 256
    ensures Le(n, 1) == [n] && Le(n, 2) == [n, 0] && Le(n, 4) == [n, 0, 0, 0] && Le(n, 8) == [n, 0, 0, 0, 0, 0, 0, 0]
  {
    Zeros();
    LeNext(n, 1);
    LeNext(n, 2);
    LeNext(n, 4);
    LeNext(n, 8);
  }

  lemma {:induction false} LeNext(n: nat, k: nat)
    requires k > 0
    ensures Le(n, k) == [n % 256] + Le(n / 256, k - 1)
  {}

  lemma {:induction false} Zeros()
    ensures Le(0, 0) == [] && Le(0, 1) == [0] && Le(0, 3) == [0, 0, 0] && Le(0, 7) == [0, 0, 0, 0, 0, 0, 0]
  {
    LeNext(0, 2); LeNext(0, 3); LeNext(0, 4); LeNext(0, 5); LeNext(0, 6); LeNext(0, 7);
  }

  lemma {:induction false} OneByte(b: byte)
    ensures Str([b]) == [1, 0, 0, 0, b]
  {
    Small(1);
  }

  /** A logged addition of uri "a", title "b", text "c" with the one pair "d" = "e", and a logged removal of document 7. */
  lemma {:induction false} RecordBytes()
    ensures W.Encode(W.Record(W.AddDocument, [97], [98], [99], [W.Pair([100], [101])], 0)) ==
      [1] + [1, 0, 0, 0, 97] + [1, 0, 0, 0, 98] + [1, 0, 0, 0, 99] +
      [1, 0, 0, 0] + [1, 0, 0, 0, 100] + [1, 0, 0, 0, 101] + [0, 0, 0, 0]
    ensures W.Encode(W.Record(W.RemoveDocument, [], [], [], [], 7)) ==
      [2] + [0, 0, 0, 0] + [0, 0, 0, 0] + [0, 0, 0, 0] + [0, 0, 0, 0] + [7, 0, 0, 0]
  {
    hide Le, Str;
    OneByte(97); OneByte(98); OneByte(99); OneByte(100); OneByte(101);
    Small(0); Small(1); Small(2); Small(7);
    OnePair([100], [101]);
    assert Str([]) == [0, 0, 0, 0] by { NoBytes(); }
  }

  lemma {:induction false} NoBytes()
    ensures Str([]) == [0, 0, 0, 0]
  {
    Small(0);
  }

  lemma {:induction false} OnePair(key: W.Text, value: W.Text)
    ensures W.Pairs([W.Pair(key, value)]) == Str(key) + Str(value)
  {
    assert [W.Pair(key, value)][1..] == [];
  }

  /**
   * A container of version 1.0 with flags 5 and one section, tag 9 with the payload "x": the magic "RAGDB", the header, the
   * section's tag, its offset 48 and length 1, and the payload; its checksum follows.
   */
  lemma {:induction false} ContainerBytes()
    ensures C.Body(C.Contents([C.Section(9, [120])], 5, 1, 0)) ==
      [82, 65, 71, 68, 66, 0, 0, 0] + [1, 0] + [0, 0] + [5, 0, 0, 0] + [1, 0, 0, 0] + [0, 0, 0, 0, 0, 0, 0, 0] +
      [9, 0, 0, 0] + [48, 0, 0, 0, 0, 0, 0, 0] + [1, 0, 0, 0, 0, 0, 0, 0] + [120]
  {
    hide Le;
    Small(0); Small(1); Small(5); Small(9); Small(48);
    var s := [C.Section(9, [120])];
    assert s[1..] == [];
    assert C.Table(s, 48) == Le(9, 4) + Le(48, 8) + Le(1, 8) + [];
    assert C.Payloads(s) == [120] + [];
  }
}
