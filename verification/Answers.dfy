/** What a query asks, in the numbers it was asked with: which queries are accepted and what they are to be
    answered with. A query is a list of buckets for points, one a predicate, and a list of boundaries for
    ranges, two a predicate. */
module Answers {
  import opened Arith
  import opened Bits
  import opened Compile
  import opened Filters
  import opened TableShares
  import opened Emission
  import opened BofssMeaning

  function Predicates(query: seq<nat>, isPoint: bool): nat { if isPoint then |query| else |query| / 2 }

  // A row in bucket x satisfies predicate p.
  ghost predicate Meets(query: seq<nat>, isPoint: bool, p: nat, x: nat)
    requires p < Predicates(query, isPoint)
  {
    if isPoint then x == query[p] else query[2 * p] <= x <= query[2 * p + 1]
  }

  // How many of the first n predicates it satisfies.
  ghost function HowMany(query: seq<nat>, isPoint: bool, x: nat, n: nat): nat
    requires n <= Predicates(query, isPoint)
  {
    if n == 0 then 0 else HowMany(query, isPoint, x, n - 1) + (if Meets(query, isPoint, n - 1, x) then 1 else 0)
  }

  // What a row in bucket x counts for: under AND once if it satisfies every predicate and not at all
  // otherwise, under OR 2^k - 1 times for k satisfied predicates.
  ghost function RowCount(isAnd: bool, query: seq<nat>, isPoint: bool, x: nat): nat
  {
    var n := Predicates(query, isPoint);
    if isAnd then (if forall p :: 0 <= p < n ==> Meets(query, isPoint, p, x) then 1 else 0)
    else Pow2(HowMany(query, isPoint, x, n)) - 1
  }

  ghost function RowCounts(isAnd: bool, query: seq<nat>, isPoint: bool, buckets: seq<nat>): (w: seq<int>)
    ensures |w| == |buckets|
  {
    seq<int>(|buckets|, r requires 0 <= r < |buckets| => RowCount(isAnd, query, isPoint, buckets[r]))
  }

  // The answer over the first k rows.
  ghost function Answer(isAnd: bool, query: seq<nat>, isPoint: bool, buckets: seq<nat>, vals: seq<uint128>, k: nat): nat
    requires k <= |vals| && k <= |buckets|
  {
    if k == 0 then 0
    else Answer(isAnd, query, isPoint, buckets, vals, k - 1)
         + vals[k - 1] * RowCount(isAnd, query, isPoint, buckets[k - 1])
  }

  // The numbers of predicate p lie in the domain, and boundaries in order.
  ghost predicate InDomainAt(query: seq<nat>, isPoint: bool, p: nat, numBuckets: nat)
    requires p < Predicates(query, isPoint)
  {
    if isPoint then query[p] < numBuckets else query[2 * p] <= query[2 * p + 1] < numBuckets
  }

  // A range that begins with the first bucket or ends with the last.
  ghost predicate OneSidedAt(query: seq<nat>, p: nat, numBuckets: nat)
    requires p < Predicates(query, false)
  {
    query[2 * p] == 0 || query[2 * p + 1] == numBuckets - 1
  }

  // The queries to be answered.
  ghost predicate Askable(query: seq<nat>, isPoint: bool, numBuckets: nat)
  {
    && query != [] && (isPoint || |query| % 2 == 0)
    && forall p :: 0 <= p < Predicates(query, isPoint) ==> InDomainAt(query, isPoint, p, numBuckets)
  }

  // Over keys, ranges have one side only.
  ghost predicate AskableByKeys(query: seq<nat>, isPoint: bool, numBuckets: nat)
  {
    && Askable(query, isPoint, numBuckets)
    && (isPoint || forall p :: 0 <= p < Predicates(query, false) ==> OneSidedAt(query, p, numBuckets))
  }

  // ----- the numbers as intervals -----

  function Intervals(query: seq<nat>, isPoint: bool): (vs: seq<Interval>)
    ensures |vs| == Predicates(query, isPoint)
    ensures isPoint ==> forall i :: 0 <= i < |vs| ==> vs[i].left == vs[i].right == query[i]
    ensures !isPoint ==> forall i :: 0 <= i < |vs| ==> vs[i] == Interval(query[2 * i], query[2 * i + 1])
  {
    if isPoint then seq<Interval>(|query|, i requires 0 <= i < |query| => Interval(query[i], query[i]))
    else seq<Interval>(|query| / 2, i requires 0 <= i < |query| / 2 => Interval(query[2 * i], query[2 * i + 1]))
  }

  // One number of a query against one interval.
  lemma MeetsInterval(query: seq<nat>, isPoint: bool, p: nat, x: nat)
    requires p < Predicates(query, isPoint)
    ensures
      var v := Intervals(query, isPoint)[p];
      Meets(query, isPoint, p, x) <==> v.left <= x <= v.right
  {
  }

  lemma HitAt(query: seq<nat>, isPoint: bool, x: nat, p: nat)
    requires p < Predicates(query, isPoint)
    ensures Hits(Intervals(query, isPoint), x)[p] == if Meets(query, isPoint, p, x) then 1 else 0
  {
    hide Intervals, Meets;
    MeetsInterval(query, isPoint, p, x);
  }

  lemma CountNext(h: seq<int>, n: nat)
    requires n < |h|
    ensures Count(h[..n + 1]) == Count(h[..n]) + if h[n] == 1 then 1 else 0
  {
    assert h[..n + 1][..n] == h[..n];
  }

  lemma {:induction false} HitsCounted(query: seq<nat>, isPoint: bool, x: nat, n: nat)
    requires n <= Predicates(query, isPoint)
    ensures Count(Hits(Intervals(query, isPoint), x)[..n]) == HowMany(query, isPoint, x, n)
  {
    hide Intervals, Hits, Meets;
    if n > 0 {
      hide Count;
      HitsCounted(query, isPoint, x, n - 1);
      HitAt(query, isPoint, x, n - 1);
      CountNext(Hits(Intervals(query, isPoint), x), n - 1);
    }
  }

  // A row weighs what the numbers of the query make it count for.
  lemma WeightCounts(isAnd: bool, query: seq<nat>, isPoint: bool, x: nat)
    ensures Weight(isAnd, Intervals(query, isPoint), x) == RowCount(isAnd, query, isPoint, x)
  {
    hide Count, HowMany, Intervals, Meets;
    var vs, n := Intervals(query, isPoint), Predicates(query, isPoint);
    forall p | 0 <= p < n ensures Meets(query, isPoint, p, x) <==> vs[p].left <= x <= vs[p].right {
      MeetsInterval(query, isPoint, p, x);
    }
    HitsCounted(query, isPoint, x, n);
    assert Hits(vs, x)[..n] == Hits(vs, x);
  }

  lemma WeightsCount(isAnd: bool, query: seq<nat>, isPoint: bool, buckets: seq<nat>)
    ensures Weights(isAnd, Intervals(query, isPoint), buckets) == RowCounts(isAnd, query, isPoint, buckets)
  {
    hide Weight, RowCount, Intervals;
    forall r | 0 <= r < |buckets|
      ensures Weight(isAnd, Intervals(query, isPoint), buckets[r]) == RowCount(isAnd, query, isPoint, buckets[r])
    {
      WeightCounts(isAnd, query, isPoint, buckets[r]);
    }
  }

  lemma {:induction false} CountedSum(isAnd: bool, query: seq<nat>, isPoint: bool, buckets: seq<nat>,
                                      vals: seq<uint128>,
                                      k: nat)
    requires k <= |vals| && k <= |buckets|
    ensures WeightedSum(vals, RowCounts(isAnd, query, isPoint, buckets), k)
         == Answer(isAnd, query, isPoint, buckets, vals, k)
  {
    hide RowCount;
    if k > 0 { CountedSum(isAnd, query, isPoint, buckets, vals, k - 1); }
  }

  // The intervals lie inside exactly when the numbers do.
  lemma AskableInside(query: seq<nat>, isPoint: bool, l: Layout)
    ensures AllInside(Intervals(query, isPoint), l)
       <==> forall p :: 0 <= p < Predicates(query, isPoint) ==> InDomainAt(query, isPoint, p, Buckets(l))
  {
    hide Intervals, Buckets;
    var vs := Intervals(query, isPoint);
    forall p | 0 <= p < |vs| ensures Inside(vs[p], l) <==> InDomainAt(query, isPoint, p, Buckets(l)) { }
  }

  lemma AskableCompiles(query: seq<nat>, isPoint: bool, l: Layout)
    ensures query != [] && (isPoint || |query| % 2 == 0) && AllCompilable(Intervals(query, isPoint), l, isPoint)
       <==> AskableByKeys(query, isPoint, Buckets(l))
  {
    hide Intervals, Buckets;
    var vs, n := Intervals(query, isPoint), Buckets(l);
    forall p | 0 <= p < |vs|
      ensures Compilable(vs[p], l, isPoint)
         <==> InDomainAt(query, isPoint, p, n) && (isPoint || OneSidedAt(query, p, n))
    {
    }
  }

  // ----- what a message means -----

  /** The leaves of a BO query, grouped as the servers group them, count every row as the query's numbers do,
      whatever bucket the row is in. */
  lemma EmittedCounts(l: Layout, query: seq<nat>, isPoint: bool, isAnd: bool, buckets: seq<nat>)
    requires ValidLayout(l) && Askable(query, isPoint, l.blockNum * l.blockSize) && InDomain(buckets, l)
    ensures AllInside(Intervals(query, isPoint), l)
    ensures
      var es := Emitted(BoxLists(l, Intervals(query, isPoint), isPoint));
      && GroupsFit(MasksByPred(MasksOf(l, es), PredsOf(es)), l)
      && FilterPlain(isAnd, l, MasksByPred(MasksOf(l, es), PredsOf(es)), buckets)
         == RowCounts(isAnd, query, isPoint, buckets)
  {
    hide Intervals, BoxLists, Weights, RowCounts, FilterPlain, Emitted, MasksOf, PredsOf, MasksByPred, GroupsFit,
      InDomain,
      AllInside;
    AskableInside(query, isPoint, l);
    EmittedMeaning(l, Intervals(query, isPoint), isPoint, isAnd, buckets);
    WeightsCount(isAnd, query, isPoint, buckets);
  }

  // Over keys, the same where no point is asked of a domain of one point, and nothing where one is: points ask
  // both domains for one, ranges only the blocks.
  ghost function KeyedCounts(l: Layout, isAnd: bool, query: seq<nat>, isPoint: bool, buckets: seq<nat>): (w: seq<int>)
    ensures |w| == |buckets|
  {
    if l.blockNum == 1 || (isPoint && l.blockSize == 1) then seq<int>(|buckets|, _ => 0)
    else RowCounts(isAnd, query, isPoint, buckets)
  }

  lemma KeyedWeights(l: Layout, isAnd: bool, query: seq<nat>, isPoint: bool, buckets: seq<nat>)
    requires ValidLayout(l) && Intervals(query, isPoint) != []
    ensures Weights(isAnd, Effective(Intervals(query, isPoint), Supported(l, isPoint)), buckets)
         == KeyedCounts(l, isAnd, query, isPoint, buckets)
  {
    hide RowCounts, Intervals, Weights;
    var vs := Intervals(query, isPoint);
    WeightsCount(isAnd, query, isPoint, buckets);
    if !Supported(l, isPoint) {
      forall r | 0 <= r < |buckets| ensures Weights(isAnd, Effective(vs, false), buckets)[r] == 0 {
        RowWeighsNothing(vs, isAnd, buckets, r);
      }
    }
  }

  // The answer over keys: 0 where nothing is counted.
  ghost function KeyedAnswer(l: Layout, isAnd: bool, query: seq<nat>, isPoint: bool, buckets: seq<nat>,
                             vals: seq<uint128>): int
    requires |vals| <= |buckets|
  {
    if l.blockNum == 1 || (isPoint && l.blockSize == 1) then 0
    else Answer(isAnd, query, isPoint, buckets, vals, |vals|) % M
  }

  lemma KeyedSum(l: Layout, isAnd: bool, query: seq<nat>, isPoint: bool, buckets: seq<nat>, vals: seq<uint128>)
    requires |vals| <= |buckets|
    ensures WeightedSum(vals, KeyedCounts(l, isAnd, query, isPoint, buckets), |vals|) % M
         == KeyedAnswer(l, isAnd, query, isPoint, buckets, vals)
  {
    hide RowCounts, Answer;
    CountedSum(isAnd, query, isPoint, buckets, vals, |vals|);
    if l.blockNum == 1 || (isPoint && l.blockSize == 1) {
      ZeroSum(vals, KeyedCounts(l, isAnd, query, isPoint, buckets), |vals|);
    }
  }

  lemma {:induction false} ZeroSum(vals: seq<uint128>, w: seq<int>, k: nat)
    requires k <= |vals| && k <= |w| && forall r :: 0 <= r < |w| ==> w[r] == 0
    ensures WeightedSum(vals, w, k) == 0
  {
    if k > 0 { ZeroSum(vals, w, k - 1); }
  }

  /** The keyed leaves of a BOFSS query, grouped, count every row likewise. */
  lemma KeyedCount(l: Layout, query: seq<nat>, isPoint: bool, isAnd: bool, buckets: seq<nat>)
    requires ValidLayout(l) && AskableByKeys(query, isPoint, l.blockNum * l.blockSize) && InDomain(buckets, l)
    ensures AllCompilable(Intervals(query, isPoint), l, isPoint)
    ensures
      var es := Emitted(FssLists(l, Intervals(query, isPoint), isPoint));
      var groups := MasksByPred(FssMasks(l, ItemsOf(es)), PredsOf(es));
      GroupsFit(groups, l) && FilterPlain(isAnd, l, groups, buckets) == KeyedCounts(l, isAnd, query, isPoint, buckets)
  {
    hide Intervals, FssLists, Weights, KeyedCounts, FilterPlain, Emitted, FssMasks, PredsOf, ItemsOf, MasksByPred,
      GroupsFit, InDomain, Compilable, Supported, Effective, InDomainAt, OneSidedAt;
    AskableCompiles(query, isPoint, l);
    FssMeaning(l, Intervals(query, isPoint), isPoint, isAnd, buckets);
    KeyedWeights(l, isAnd, query, isPoint, buckets);
  }
}
