/** keyGenDCFMAC: the client's key generation loop, with the value words beside the tree words. */
module DCFClient {
  import opened Arith
  import opened Bits
  import opened Blocks
  import opened SeedTree
  import opened Shares
  import DCF
  import DPFClient

  /** The value part of one level: the value word and the opened value carried on. */
  method ValueLevel(c: Cipher, s0: Block, s1: Block, keep: bool, vAlpha: uint128, payload: uint128, greaterThan: bool)
    returns (v: uint128, next: uint128)
    ensures v == DCF.ValueWord(c, Pair(s0, s1), keep, vAlpha, payload, greaterThan)
    ensures next == DCF.NextAlpha(c, Pair(s0, s1), keep, vAlpha, v)
  {
    hide Expand;
    var v00, v01 := ToInt(Expand(c.aes2, s0)), ToInt(Expand(c.aes3, s0));
    var v10, v11 := ToInt(Expand(c.aes2, s1)), ToInt(Expand(c.aes3, s1));
    var lost0, lost1 := if keep then v00 else v01, if keep then v10 else v11;
    var kept0, kept1 := if keep then v01 else v00, if keep then v11 else v10;
    var sign := Sign(s1.t);
    v := Mul(sign, Sub(Sub(lost1, lost0), vAlpha)) % M;
    if keep {
      v := Add(v, Mul(sign, Mul(Num(!greaterThan), payload)));
    } else {
      v := Add(v, Mul(sign, Mul(Num(greaterThan), payload)));
    }
    v := v % M;
    next := Add(Add(Sub(vAlpha, kept1), kept0), Mul(sign, v)) % M;
  }

  method Finish(s0: Block, s1: Block, vAlpha: uint128) returns (v: uint128)
    ensures v == DCF.LastWord(Pair(s0, s1), vAlpha)
  {
    v := Mul(Sign(s1.t), Sub(Sub(Convert(s1), Convert(s0)), vAlpha));
    v := v % M;
  }

  // What the arrays hold once the first i levels are published.
  ghost predicate Published(c: Cipher, seeds: Pair, target: seq<bool>, payload: uint128, gt: bool, i: nat,
                            k0: seq<Block>, v0: seq<uint128>, k1: seq<Block>, v1: seq<uint128>)
  {
    && i <= |target| && |k0| == |k1| == |v0| == |v1| == |target| + 1
    && (forall j :: 0 <= j <= i ==> k0[j] == TreeKey(c, seeds, target, false, |target|)[j])
    && (forall j :: 0 <= j <= i ==> k1[j] == TreeKey(c, seeds, target, true, |target|)[j])
    && (forall j :: 0 <= j < i ==> v0[j] == v1[j] == DCF.Words(c, seeds, target, payload, gt, |target|)[j])
  }

  // One more level: the same words for both parties.
  lemma PublishLevel(c: Cipher, seeds: Pair, target: seq<bool>, payload: uint128, gt: bool, i: nat,
                     k0: seq<Block>, v0: seq<uint128>, k1: seq<Block>, v1: seq<uint128>, cw: Block, v: uint128)
    requires Published(c, seeds, target, payload, gt, i, k0, v0, k1, v1) && i < |target|
    requires cw == CorrectionWord(c, GenPair(c, seeds, target, i), target[i])
    requires v == DCF.ValueWord(c, GenPair(c, seeds, target, i), target[i],
                                DCF.AlphaAt(c, seeds, target, payload, gt, i), payload, gt)
    ensures Published(c, seeds, target, payload, gt, i + 1, k0[i + 1 := cw], v0[i := v], k1[i + 1 := cw], v1[i := v])
  {
    hide CorrectionWord, GenPair, DCF.ValueWord, DCF.AlphaAt, TreeKey, DCF.Words;
    DCF.WordsAt(c, seeds, target, payload, gt, |target|, i);
    DPFClient.EntryAt(c, seeds, target, false, i);
    DPFClient.EntryAt(c, seeds, target, true, i);
  }

  lemma PublishedAll(c: Cipher, seeds: Pair, target: seq<bool>, payload: uint128, gt: bool,
                     k0: seq<Block>, v0: seq<uint128>, k1: seq<Block>, v1: seq<uint128>, last: uint128)
    requires Published(c, seeds, target, payload, gt, |target|, k0, v0, k1, v1)
    requires v0[|target|] == v1[|target|] == last
    requires last == DCF.LastWord(GenPair(c, seeds, target, |target|),
                                  DCF.AlphaAt(c, seeds, target, payload, gt, |target|))
    ensures DCF.Key(k0, v0) == DCF.Gen(c, seeds, target, payload, gt, false)
    ensures DCF.Key(k1, v1) == DCF.Gen(c, seeds, target, payload, gt, true)
  {
    hide GenPair, DCF.LastWord, DCF.AlphaAt, TreeKey, DCF.Words;
  }

  method KeyGenDCFMAC(c: Cipher, idx: uint128, payload: uint128, seeds: Pair, depth: nat, greaterThan: bool,
                      k0: array<Block>, v0: array<uint128>, k1: array<Block>, v1: array<uint128>)
    requires k0 != k1 && v0 != v1
    requires k0.Length == k1.Length == v0.Length == v1.Length == depth + 1
    modifies k0, v0, k1, v1
    ensures DCF.Key(k0[..], v0[..]) == DCF.Gen(c, seeds, PathOf(idx / 128, depth), payload, greaterThan, false)
    ensures DCF.Key(k1[..], v1[..]) == DCF.Gen(c, seeds, PathOf(idx / 128, depth), payload, greaterThan, true)
  {
    hide CorrectionWord, Traverse, BitAt, DCF.ValueWord, DCF.NextAlpha, DCF.LastWord, TreeKey, DCF.Words, Published,
      DCF.Gen;
    var kIdx := idx / 128;
    ghost var target := PathOf(kIdx, depth);
    var s0, s1 := seeds.s0.(t := !seeds.s1.t), seeds.s1;
    var vAlpha: uint128 := 0;
    k0[0], k1[0] := s0, s1;
    PublishedRoots(c, seeds, target, payload, greaterThan, k0[..], v0[..], k1[..], v1[..]);
    var i := 0;
    while i < depth
      invariant 0 <= i <= depth
      invariant Pair(s0, s1) == GenPair(c, seeds, target, i)
      invariant vAlpha == DCF.AlphaAt(c, seeds, target, payload, greaterThan, i)
      invariant Published(c, seeds, target, payload, greaterThan, i, k0[..], v0[..], k1[..], v1[..])
    {
      var keep := BitAt(kIdx, depth - 1 - i);
      var v, next := ValueLevel(c, s0, s1, keep, vAlpha, payload, greaterThan);
      var cw, n0, n1 := DPFClient.Level(c, s0, s1, keep);
      PublishLevel(c, seeds, target, payload, greaterThan, i, k0[..], v0[..], k1[..], v1[..], cw, v);
      v0[i], v1[i] := v, v;
      k0[i + 1], k1[i + 1] := cw, cw;
      s0, s1, vAlpha := n0, n1, next;
      i := i + 1;
    }
    var last := Finish(s0, s1, vAlpha);
    KeepLast(c, seeds, target, payload, greaterThan, k0[..], v0[..], k1[..], v1[..], last);
    v0[depth], v1[depth] := last, last;
    PublishedAll(c, seeds, target, payload, greaterThan, k0[..], v0[..], k1[..], v1[..], last);
  }

  lemma PublishedRoots(c: Cipher, seeds: Pair, target: seq<bool>, payload: uint128, gt: bool,
                       k0: seq<Block>, v0: seq<uint128>, k1: seq<Block>, v1: seq<uint128>)
    requires |k0| == |k1| == |v0| == |v1| == |target| + 1
    requires k0[0] == Root(seeds).s0 && k1[0] == Root(seeds).s1
    ensures Published(c, seeds, target, payload, gt, 0, k0, v0, k1, v1)
  {
    hide TreeKey, DCF.Words;
    DPFClient.RootEntry(c, seeds, target);
  }

  // Writing the last value words keeps the published levels.
  lemma KeepLast(c: Cipher, seeds: Pair, target: seq<bool>, payload: uint128, gt: bool,
                 k0: seq<Block>, v0: seq<uint128>, k1: seq<Block>, v1: seq<uint128>, last: uint128)
    requires Published(c, seeds, target, payload, gt, |target|, k0, v0, k1, v1)
    ensures Published(c, seeds, target, payload, gt, |target|, k0, v0[|target| := last], k1, v1[|target| := last])
  {
    hide TreeKey, DCF.Words;
  }
}
