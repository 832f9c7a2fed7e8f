/** The byte layout of scalar keys (keys.cpp): tree words, then output words, then the same again for
    the MAC key in malicious mode. */
module Keys {
  import opened Arith
  import opened Blocks
  import opened Bytes
  import DPF
  import DCF

  function DcfBytes(key: DCF.Key): (s: seq<byte>)
    requires |key.k| == |key.v|
    ensures |s| == 32 * |key.k|
  {
    WordsBytes(ToInts(key.k)) + WordsBytes(key.v)
  }

  function ReadDcf(s: seq<byte>, depth: nat): (key: DCF.Key)
    requires |s| >= 32 * (depth + 1)
    ensures |key.k| == |key.v| == depth + 1
  {
    DCF.Key(FromInts(ReadWords(s, depth + 1)), ReadWords(s[16 * (depth + 1)..], depth + 1))
  }

  function DpfBytes(key: DPF.Key): (s: seq<byte>)
    ensures |s| == 16 * |key.k| + 16
  {
    WordsBytes(ToInts(key.k)) + WordsBytes([key.g])
  }

  function ReadDpf(s: seq<byte>, depth: nat): (key: DPF.Key)
    requires |s| >= 16 * (depth + 1) + 16
    ensures |key.k| == depth + 1
  {
    DPF.Key(FromInts(ReadWords(s, depth + 1)), ReadWords(s[16 * (depth + 1)..], 1)[0])
  }

  /** A serialized comparison key reads back as itself, whatever bytes follow it. */
  lemma DcfRoundTrip(key: DCF.Key, depth: nat, rest: seq<byte>)
    requires |key.k| == |key.v| == depth + 1
    ensures ReadDcf(DcfBytes(key) + rest, depth) == key
  {
    hide WordsBytes, ReadWords, ToInts, FromInts;
    var s := DcfBytes(key) + rest;
    var tail := WordsBytes(key.v) + rest;
    assert s == WordsBytes(ToInts(key.k)) + tail;
    assert s[16 * (depth + 1)..] == tail;
    WordsRoundTrip(ToInts(key.k), tail);
    WordsRoundTrip(key.v, rest);
    IntsRoundTrip(key.k);
  }

  lemma DpfRoundTrip(key: DPF.Key, depth: nat, rest: seq<byte>)
    requires |key.k| == depth + 1
    ensures ReadDpf(DpfBytes(key) + rest, depth) == key
  {
    hide WordsBytes, ReadWords, ToInts, FromInts;
    var s := DpfBytes(key) + rest;
    var tail := WordsBytes([key.g]) + rest;
    assert s == WordsBytes(ToInts(key.k)) + tail;
    assert s[16 * (depth + 1)..] == tail;
    WordsRoundTrip(ToInts(key.k), tail);
    WordsRoundTrip([key.g], rest);
    IntsRoundTrip(key.k);
  }

  // A block as a 128-bit number: the upper 126 bits, bit 1 and the t bit.
  ghost function NumberOf(s: Block): nat { 4 * s.hi + (if s.mid then 2 else 0) + (if s.t then 1 else 0) }

  // The blocks of a tree as numbers.
  ghost function Numbers(k: seq<Block>): (ws: seq<uint128>)
    ensures |ws| == |k| && forall i :: 0 <= i < |k| ==> ws[i] == NumberOf(k[i])
  {
    seq<uint128>(|k|, i requires 0 <= i < |k| => NumberOf(k[i]))
  }

  /** Where everything stands in a point key's bytes: the tree words first, from the root down, then the output
      word. */
  lemma DpfLayout(key: DPF.Key)
    ensures WordsStandAt(DpfBytes(key), 0, Numbers(key.k)) && WordsStandAt(DpfBytes(key), 16 * |key.k|, [key.g])
  {
    hide WordsBytes, WordsStandAt;
    assert ToInts(key.k) == Numbers(key.k);
    var tree, out := WordsBytes(ToInts(key.k)), WordsBytes([key.g]);
    WordsStand([], Numbers(key.k), out);
    WordsStand(tree, [key.g], []);
    assert [] + tree + out == tree + out + [] == DpfBytes(key);
  }

  /** And in a comparison key's: the tree words first, then as many value words. */
  lemma DcfLayout(key: DCF.Key)
    requires |key.k| == |key.v|
    ensures WordsStandAt(DcfBytes(key), 0, Numbers(key.k)) && WordsStandAt(DcfBytes(key), 16 * |key.k|, key.v)
  {
    hide WordsBytes, WordsStandAt;
    assert ToInts(key.k) == Numbers(key.k);
    var tree, out := WordsBytes(ToInts(key.k)), WordsBytes(key.v);
    WordsStand([], Numbers(key.k), out);
    WordsStand(tree, key.v, []);
    assert [] + tree + out == tree + out + [] == DcfBytes(key);
  }
}
