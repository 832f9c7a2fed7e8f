# Verified model of a three-server private aggregate-query engine

The engine answers aggregate queries ("sum the values of the rows whose bucket lies in these intervals") over a
table that three servers hold only in secret-shared form. This project models its core in Dafny and proves that the
answers are right. The four parts of the engine build on one another here as they do in the code.

1. **Function secret sharing.** Tree-based point functions and comparison functions with arithmetic mod 2^128 reduced
   mod 2^125 (`SeedTree`, `DPF`, `DCF`, their clients and servers), the key objects and their bytes (`Keys`,
   `KeyObjects`, `KeyPacks`), what the levels compute in bits and numbers (`Levels`), which leaves a range evaluation
   visits (`Ranges`), the vector form used by queries (`VectorFss`, `VectorFssOps`), the interval table (`DcfTable`)
   and the plain filters' clients (`PlainFilters`).
   A block is its upper 126 bits, bit 1 and the t bit. AES is an arbitrary function and the generator's output an
   arbitrary input.
2. **Replicated secret sharing.** Server i holds shares i and i + 1 of every word. `Rss` and `RssRuns` state what
   resharing, AND and OR open to; `RingExchange` is the step system of the one-slot mailbox exchange they run on;
   `RingRuns` runs the protocol on it, so that its results hold under every interleaving. `QueryServer` and `Cluster`
   are the servers' mutable state and the operations on it, run in lockstep; every exchange of `Cluster` is recorded
   as an operation of `RssRuns`, and what comes out of it as that operation's result (`Trace`). `Schedules` concludes
   that the filters and answers of queries are the same under every interleaving.
3. **Query compilation.** `Compile` turns intervals into block x offset leaves; `Regroup`, `Emission`, `BofssLeaves`
   and `BofssMeaning` carry them through messages, keys and grouping; `Answers` says what a query asks, in the numbers
   it is asked with; `MixedPlacement` is the key placement of VBFSS; `Filters` and `TableShares` say what shares stand
   for; `QueryClient` is the client, up to the two end-to-end queries; `Sessions` composes whole sessions from fresh
   servers.
4. **The aggregate tree.** `AggTree` is the linked, left-filling tree with sentinel indices, `TreeShape` and
   `TreeValues` what its fields mean, `SharedAppend` the client/server append protocol over six share trees, and
   `BulkBuild` the bulk constructor.

Mutable objects are classes, loops over buffers are loops over arrays, and recursive or expression code is functions.
A method is tied to a specification function by its contract, and the lemmas about that function carry the meaning.
`Arith`, `Bits`, `Blocks`, `Bytes`, `Shares` and `Results` are the arithmetic underneath.

## Where the code does less than it seems to promise

Each of these is proved, with the exact condition.

- A vector point key over a domain of **one** point opens to 0 instead of the payload, because the range evaluator
  writes nothing at depth 0 (`VectorFss.PointVectorRightIff`). A BOFSS query is therefore answered with 0 on
  layouts with one block, and point queries also on blocks of one bucket, and correctly on every other accepted layout
  (`QueryClient.QueryClient.BOFSSAggQuery`).
- `OrFilters` computes x + y + x*y. On overlapping predicates an OR query weighs a row satisfying k predicates by
  2^k - 1, a union exactly when k is at most 1 (`Compile.UnionIffAtMostOne`, `Emission.GroupsWeigh`).
- VBFSS places the second halves of three different key pairs one server off. The answer is right on every sharing of
  every row iff the three pairs' first halves agree, as they do when the pairs come from equal seeds
  (`MixedPlacement.PointLeafRightIff`, `MixedPlacement.CompareLeafRightIff`); generated keys can make it 2 instead of 1
  (`MixedPlacement.MixedFails`).
- The plain point and comparison filters send one key pair three times, which is answered right -- but the pair of the
  first query the table's client was ever asked (`PlainFilters.PointQueries`, `PlainFilters.IntervalQueries`). A later
  query is answered right iff it names the same buckets (`PlainFilters.StalePointIff`, `PlainFilters.StaleIntervalIff`).
- Range evaluation asserts that the length is a power of two, not that the range is aligned. Unaligned ranges are
  evaluated right iff no halved piece straddles a subtree boundary (`Ranges.RangeRightIff`, `Ranges.UnalignedRanges`).
- Interval containment answers right_x < x < left_x only when right_x < left_x (or left_x = 0 with right_x the last
  bucket); with right_x the last bucket, right_x + 1 wraps in the key's depth (`DcfTable.IntervalRightIff`).
- The bulk-built tree stores the right half's first key as midIdx, the appended tree the smaller of that and the left
  half's last key plus one (`TreeShape.FieldsIndex`); for increasing keys they agree only where these are consecutive
  (`BulkBuild.BulkFieldsAgree`).
- Bulk-built sums and appended sums agree iff both orders read a partial sum as the sentinel equally often mod 2^128
  (`BulkBuild.BulkAgreesWithAppends`, `BulkBuild.SumsPart`).
- Appends send a 64-bit index but the servers keep its low 32 bits: the trees hold what was sent iff every index is
  below 2^32 (`SharedAppend.IndicesKeptIff`, `SharedAppend.AppendAll`), and otherwise a node's bounds can be out of
  order (`SharedAppend.OrderIsLost`).

## Model

| member | source | states |
|---|---|---|
| SeedTree.WalkInvariant | fss-core/DPF-source/DPFClient.cpp:42-112 | For any AES functions, seeds, target and path of any depth: after i levels the two evaluators hold the generator's two states and opposite t bits while the path agrees with the target; once it has left, their states agree except in bit 1, which no correction word touches. |
| Levels.XorIsBitwise | fss-core/DPF-source/DPFClient.cpp:42-112 | The operation on a block's upper bits is the exclusive or, bit by bit. |
| Levels.StepIs | fss-core/DPF-source/DPFServer.cpp:32-101 | One step of a party: with the masked state under the second permutation on the right and the first on the left, exclusive-or the state's upper bits, and, where the control bit is set, exclusive-or the level's word -- its upper bits, and to the control bit its low bit on the right and bit 1 on the left. |
| Levels.WordIs | fss-core/DPF-source/DPFClient.cpp:42-112 | Both parties get the same words behind their first ones, the seeds with control bits made different. In terms of the two states reached on the target's path, each word is the difference of what both would reach by leaving it, with control bits that differ on the path and agree beside it. |
| Levels.PointShareIs | fss-core/DPF-source/DPFServer.cpp:32-101 | A share is four times the last state's upper bits, plus the output word where the control bit is set, negated at the second party, mod 2^125. |
| Levels.OutputIs | fss-core/DPF-source/DPFClient.cpp:112-137 | The output word, the same for both, is the payload less the first and plus the second party's number, negated where the second control bit is set. |
| Levels.AccumulatorIs | fss-core/DCF-source/DCFServer.cpp:178-235 | One step of the accumulator: the value the fourth permutation gives on the right and the third on the left, and the level's value word where the control bit is set, added -- negated at the second party -- mod 2^125. |
| Levels.CompareShareIs | fss-core/DCF-source/DCFServer.cpp:127-176 | The leaf adds four times the state's upper bits and the last word likewise. |
| Levels.ValueWordIs | fss-core/DCF-source/DCFClient.cpp:212-305 | Each value word makes the two parties open, where they leave the path at its level, to what is due there: the payload on the paying side, 0 on the other. |
| Levels.LastWordIs | fss-core/DCF-source/DCFClient.cpp:212-305 | The last one makes them open to 0 on the target. |
| DPF.Correct | fss-core/DPF-source/DPFServer.cpp:32-101 | The two parties' evaluations of keys generated for alpha sum mod 2^125 to the payload at x = alpha and to 0 at every other x below 2^depth. |
| DPFClient.KeyGenDPF | fss-core/DPF-source/DPFClient.cpp:42-137 | The in-place level loop leaves in the four output arrays exactly the key pair that DPF.Correct is about, for the point encoded in the upper bits of idx. |
| DPFServer.EvalOneDPF | fss-core/DPF-source/DPFServer.cpp:32-101 | The evaluation loop computes the party's share at the encoded point, the function DPF.Correct sums. |
| DPFServer.ContigEvalOneDPFLarge | fss-core/DPF-source/DPFServer.cpp:103-153 | The range recursion writes at off + i the evaluation on the path its own index arithmetic takes for leaf i, for every start and power-of-two range, and changes no other cell; below the leaves it writes nothing. It terminates on depth + 1 - curDepth. |
| DPFServer.ContigDomainDPFLargeOutOptimized | fss-core/DPF-source/DPFServer.cpp:155-179 | For every start and power-of-two length, cell i of the range holds the evaluation on path i of the recursion, every other cell its old value; on a range aligned to its size path i is that of start + i. A depth-0 tree writes nothing at all. |
| Ranges.RangeRightIff | fss-core/DPF-source/DPFServer.cpp:103-179 | A range evaluation visits exactly the leaves start, start + 1, ... if and only if no halved piece of the range straddles a boundary of the subtree its index bit picks -- for every start, power-of-two length and depth, both trees' evaluators sharing the recursion. |
| Ranges.AlignedFits | fss-core/DPF-source/DPFServer.cpp:155-179 | Ranges aligned to their size meet that condition. |
| Ranges.UnalignedRanges | fss-core/DPF-source/DPFServer.cpp:155-179 | At depth 3 the range 1..2 is evaluated right and the range 1..4, which the length check also accepts, is not. |
| DCF.AccInvariant | fss-core/DCF-source/DCFClient.cpp:212-305 | At every level the opened accumulator is the payload if the path has already left the target on the paying side, 0 if it left on the other side, and the generator's v_alpha while it has not left. |
| DCF.Correct | fss-core/DCF-source/DCFServer.cpp:127-235 | The two parties' evaluations sum mod 2^125 to the payload where x < alpha (x > alpha for greaterThan) and to 0 elsewhere, x = alpha included, for every depth, payload, seed pair and AES. |
| DCFClient.KeyGenDCFMAC | fss-core/DCF-source/DCFClient.cpp:212-305 | The level loop, its value words and the closing word leave in the arrays exactly the key pair that DCF.Correct is about. |
| DCFServer.TraverseOneDCFMAC | fss-core/DCF-source/DCFServer.cpp:178-235 | One level: the next state, and the accumulator with the party's signed, t-conditioned term added and reduced. |
| DCFServer.EvalOneDCFMAC | fss-core/DCF-source/DCFServer.cpp:127-176 | The path loop computes the party's share, the function DCF.Correct sums. |
| DCFServer.ContigEvalOneDCFLarge | fss-core/DCF-source/DCFServer.cpp:270-316 | Range recursion with running state and accumulator: every cell of the range equals the evaluation on the recursion's path, aligned or not; the rest of the buffer is untouched. |
| DCFServer.ContigDomainDCFLargeOutOptimized | fss-core/DCF-source/DCFServer.cpp:318-343 | The same for the entry point, for every start and power-of-two length; single-point evaluation on aligned ranges; depth 0 writes nothing. |
| DCFServer.EvalTablePartA | secure-indices/core/DCFTable.cpp:208-243 | Below depth 14 any number of cores, from there on any number whose chunks are powers of two: the chunks reassemble the whole-domain vector, cell x being the evaluation at x, and in malicious mode behind it the MAC key's. A depth-0 tree writes nothing. |
| KeyObjects.ClKey.DpfGenerate | secure-indices/core/keys.cpp:40-58 | The object holds a key pair for x and the payload and, in malicious mode, one for alpha times the payload; otherwise the MAC pair is unchanged. |
| KeyObjects.ClKey.DcfGenerate | secure-indices/core/keys.cpp:60-95 | greaterThan stores a less-than pair for x + 1 paying minus the payload; otherwise a pair for x in the direction asked for; MAC pairs likewise. |
| KeyObjects.DpfPairOpens | secure-indices/core/keys.cpp:40-58 | The stored pair for x opens to the payload at x and to 0 at every other point of the domain. |
| KeyObjects.DcfPairOpens | secure-indices/core/keys.cpp:60-95 | The stored pair for x opens to the payload below x (above it, if so generated) and to 0 from x on. |
| KeyObjects.ClKey.GetKeysize | secure-indices/core/keys.cpp:97-108 | The reported number is the length of the bytes either party is sent, for point and for comparison keys, plain and malicious. |
| KeyObjects.ClKey.DpfSerialize | secure-indices/core/keys.cpp:128-144 | Each party's bytes are its own key followed, in malicious mode, by its MAC key; their number is what get_keysize reports. |
| KeyObjects.ClKey.DcfSerialize | secure-indices/core/keys.cpp:110-126 | The same for comparison keys. |
| KeyObjects.SvKey.DpfDeserialize | secure-indices/core/keys.cpp:243-255 | The stored key is the one at the start of the bytes; the MAC key is read behind it exactly in malicious mode. |
| KeyObjects.SvKey.DcfDeserialize | secure-indices/core/keys.cpp:229-241 | The same for comparison keys. |
| KeyObjects.SvKey.DpfEvalContig | secure-indices/core/keys.cpp:207-216 | The range of the buffer receives the evaluations of the stored key, or of the MAC key in a malicious run; the rest is unchanged. |
| KeyObjects.SvKey.DcfEvalContig | secure-indices/core/keys.cpp:218-227 | The same for comparison keys. |
| KeyObjects.PartyBytesReadBack | secure-indices/core/keys.cpp:110-126 | Plain key, MAC key and anything behind them: both keys read back. |
| KeyObjects.PointBytesReadBack | secure-indices/core/keys.cpp:128-144 | The same for a point key followed by its MAC key. |
| Keys.DcfRoundTrip | secure-indices/core/keys.cpp:229-241 | A comparison key read from its own bytes is itself, whatever follows the bytes. |
| Keys.DpfRoundTrip | secure-indices/core/keys.cpp:243-255 | The same for point keys. |
| Keys.DpfLayout | secure-indices/core/keys.cpp:128-144 | Where everything stands in a point key's bytes: the tree words from the root down, 16 bytes each, low byte first, then the output word. |
| Keys.DcfLayout | secure-indices/core/keys.cpp:110-126 | The tree words from the root down, then as many value words. |
| KeyPacks.VdcfRoundTrip | fss-core/vDCF-source/vdcf.cpp:246-326 | Deserializing a serialized well-formed comparison pack gives the pack back. |
| KeyPacks.VdcfReprint | fss-core/vDCF-source/vdcf.cpp:275-326 | Every accepted blob is the serialization of the (well-formed) pack it was read as. |
| KeyPacks.VdcfPrefixFree | fss-core/vDCF-source/vdcf.cpp:320-326 | An accepted blob with any nonempty tail is rejected for its trailing bytes; so no strict prefix of an accepted blob is accepted. |
| KeyPacks.VdcfLayout | fss-core/vDCF-source/vdcf.cpp:246-273 | Every print: domain size in bytes 0..4, dimension in 4..8, mode in 8, the number of constants or keys in 9..13, all low byte first; then the constants, or the keys in order, each behind its length. |
| KeyPacks.VdcfAccepted | fss-core/vDCF-source/vdcf.cpp:275-326 | Every accepted blob is laid out so for the pack it was read as. |
| KeyPacks.PrintVdcf | fss-core/vDCF-source/vdcf.cpp:246-273 | The printing loops produce the bytes the round trips are about, laid out as stated. |
| KeyPacks.ParseVdcf | fss-core/vDCF-source/vdcf.cpp:275-326 | The cursor-based parser returns the pack, or the first error, that the specification parser does; of an accepted blob the first four bytes are the domain size, the next four the dimension, then mode, count and contents. |
| KeyPacks.VdpfRoundTrip | fss-core/vDPF-source/vdpf.cpp:159-203 | Deserializing a serialized well-formed point pack gives the pack back. |
| KeyPacks.VdpfReprint | fss-core/vDPF-source/vdpf.cpp:174-203 | Every accepted blob is the serialization of the pack it was read as. |
| KeyPacks.VdpfPrefixFree | fss-core/vDPF-source/vdpf.cpp:174-203 | Extending an accepted blob, or cutting one short, is rejected. |
| KeyPacks.VdpfLayout | fss-core/vDPF-source/vdpf.cpp:159-172 | Every print: domain size in bytes 0..4, dimension in 4..8, the number of keys in 8..12, all low byte first; then the keys in order, each behind its length. |
| KeyPacks.VdpfAccepted | fss-core/vDPF-source/vdpf.cpp:174-203 | Every accepted blob is laid out so for the pack it was read as. |
| KeyPacks.PrintVdpf | fss-core/vDPF-source/vdpf.cpp:159-172 | The printing loops produce those bytes: domain size, dimension, number of keys, then the keys in order, each behind its length. |
| KeyPacks.ParseVdpf | fss-core/vDPF-source/vdpf.cpp:174-203 | The parser loop agrees with the specification parser, errors included; of an accepted blob the first four bytes are the domain size, the next four the dimension, then the count and the keys in order. |
| VectorFss.DepthOfPower | fss-core/vDCF-source/vdcf.cpp:13-22 | A domain of 2^d points is accepted, with depth d. |
| VectorFss.DomainIsPower | fss-core/vDCF-source/vdcf.cpp:13-22 | A domain is accepted if and only if its size is a power of two. |
| VectorFss.PlanMeaning | fss-core/vDCF-source/vdcf.cpp:31-51 | For every domain size, operator and 32-bit threshold, in or out of the domain: a constant plan is the comparison's value at every x, a keyed plan has an in-range index and its strict comparison is equivalent to the one asked for. |
| VectorFss.PointVectorCorrect | fss-core/vDPF-source/vdpf.cpp:25-61 | The two sides' evaluations of coordinate j at row x sum mod 2^125 to payload[j] at the target and to 0 elsewhere; on a domain of one point they sum to 0. |
| VectorFss.PointVectorRightIff | fss-core/vDPF-source/vdpf.cpp:118-157 | What GenPointVector promises holds on all rows if and only if the domain has at least two points or every payload word is 0 mod 2^125. |
| VectorFss.CompareVectorCorrect | fss-core/vDCF-source/vdcf.cpp:57-126 | For every operator, threshold, accepted domain (one point included) and payload vector, the two sides sum mod 2^125 to the payload exactly on the rows where x op t, in constant and in keyed mode. |
| VectorFssOps.GenPointVector | fss-core/vDPF-source/vdpf.cpp:25-61 | Which inputs are refused and why, and otherwise the pack pair PointVectorCorrect is about. |
| VectorFssOps.GenCompareVector | fss-core/vDCF-source/vdcf.cpp:57-126 | The same for comparisons, constant shares included; both packs carry the domain size, the dimension, and mode 1 exactly for a constant plan. |
| VectorFssOps.GenConstants | fss-core/vDCF-source/vdcf.cpp:76-100 | Constant shares of an always-true comparison: the first party's are the drawn words, the second's what completes them; of an always-false one, zeros. |
| VectorFssOps.EvalAllFlatVdpf | fss-core/vDPF-source/vdpf.cpp:118-157 | Row-major layout: cell i of the result is coordinate i mod dimension at point i / dimension, for every cell; or the error for an inconsistent pack. |
| VectorFssOps.EvalAllFlatVdcf | fss-core/vDCF-source/vdcf.cpp:191-244 | The same for comparison packs, constant packs repeating their shares on every row; accepted iff usable. |
| VectorFssOps.EvalPointVdpf | fss-core/vDPF-source/vdpf.cpp:63-102 | Evaluation at one point returns the values the flat evaluation has in that row; refused exactly outside the domain or on an inconsistent pack. |
| VectorFssOps.EvalPointVdcf | fss-core/vDCF-source/vdcf.cpp:128-175 | The same for comparison packs. |
| DcfTable.EvalTablePartB | secure-indices/core/DCFTable.cpp:245-288 | Per-core partial sums over any split into cores add up to the whole dot product with the table, for every row and, in malicious mode, for the MAC evaluations as well. |
| DcfTable.ChunksAdd | secure-indices/core/DCFTable.cpp:127-136 | Neighbouring chunks of the product add up to the product of their union in 128-bit words. |
| DcfTable.IcEvalDcfTable | secure-indices/core/DCFTable.cpp:291-329 | With both boundaries: every row of a server's answer is the dot product of that row with both keys' whole-domain evaluations added. With one: with the first key's alone, whichever interval was asked for. In malicious mode the second half is the same over the MAC keys. A depth-0 tree gives zeros. |
| DcfTable.IntervalOpens | secure-indices/core/DCFTable.cpp:291-329 | The two parties' words open, at every bucket and for every pair of boundaries, to the payload -- 1, or the MAC key -- times [x < left_x] - [x < right_x + 1], the latter taken in the key's depth. |
| DcfTable.IntervalRightIff | secure-indices/core/DCFTable.cpp:42-55 | That value is the 0/1 indicator of right_x < x < left_x at every bucket if and only if right_x < left_x, or left_x = 0 with right_x the last bucket. |
| DcfTable.IntervalAnswerOpens | secure-indices/core/DCFTable.cpp:291-329 | The two answers on one row open to the payload times that row's table words weighted by the interval value. |
| DcfTable.AnswersOpen | secure-indices/core/DCFTable.cpp:291-329 | What the two parties return for an interval opens in every row to the weighted sum of its buckets and, in malicious mode, in the second half to the MAC key times that sum. |
| DcfTable.OneKeyAnswerOpens | secure-indices/core/DCFTable.cpp:131-206 | A single-sided answer opens in every row to the payload times the sum of the buckets below the boundary. |
| DcfTable.GeneratedKeys | secure-indices/core/DCFTable.cpp:42-55 | The two generated key objects are exactly the two keys of the interval, the plain pairs with payload 1 and the MAC pairs with the MAC key. |
| DcfTable.TwoKeysReadBack | secure-indices/core/DCFTable.cpp:381-406 | Two concatenated party keys read back at offsets 0 and one key size, MAC keys included, in both modes. |
| Rss.ZeroSharesCancel | server/core/server.cpp:697-701 | Each server's pseudorandom zero share plus its own key's output is its predecessor key's output, and the three shares sum to 0 mod 2^128, for any pseudorandom function, keys and counter. |
| Rss.AndOpens | server/core/server.cpp:596-680 | AndFilters of replicated vectors is replicated and opens, row by row, to the product mod 2^128. |
| Rss.OrOpens | server/core/server.cpp:600-606 | OrFilters is replicated and opens to x + y + x*y mod 2^128. |
| Rss.ReshareOpens | server/core/server.cpp:417-480 | Resharing any three-out-of-three shares with zero shares that cancel gives a replicated vector with the same sum, word by word. |
| RssRuns.RunCorrect | server/core/server.cpp:417-646 | After every sequence of operations -- reshares of any number of sets, each of its own length, ANDs and ORs of any earlier results of equal length -- all three counters are equal, every held vector is replicated (server i's first share is server i-1's second), and every one opens to the plaintext run's vector. |
| RingExchange.StepInv | server/core/server.cpp:712-724 | Each step of each server -- call, delivery into the one-slot mailbox, return, receipt -- keeps the link invariant: a link holds, in order, exactly the messages sent and not yet received. |
| RingExchange.DeliveredInOrder | server/core/server.cpp:631-646 | In every interleaving of any number of rounds, the k-th message a server receives is the k-th its predecessor sends in the lockstep run: none lost, overwritten or reordered. |
| RingExchange.RoundsStayClose | server/core/server.cpp:464-480 | No two servers are ever more than one round apart. |
| RingExchange.NoDeadlock | server/core/server.cpp:712-724 | Every reachable unfinished configuration has an enabled step. |
| RingExchange.EveryRunCompletes | server/core/server.cpp:631-724 | A run of n rounds takes at most 12 n steps, and one that cannot go on has taken all of them and left every server with the lockstep run's messages. |
| RingRuns.LockstepIsRun | server/core/server.cpp:417-646 | The protocol's servers, each computing its next message from its own keys, inputs and what it has received, are a program of the ring, and its lockstep run is the run RunCorrect is about. |
| RingRuns.EveryInterleavingCorrect | server/core/server.cpp:417-724 | However calls, deliveries and receipts interleave, a protocol of n operations takes at most 12 n moves, and a schedule that cannot go on leaves the servers with equal counters and replicated vectors that open to the plaintext run's. |
| Trace.ProductNext | server/core/server.cpp:596-680 | One more AND or OR after any list of operations: its three messages, how far the counter moves, and which vector comes out as the next result, from the vectors earlier operations left. |
| Trace.ReshareNext | server/core/server.cpp:431-512 | The same for a reshare of any number of sets: its messages are the masked sets, its results their reshares. |
| Trace.Kept | server/core/server.cpp:596-680 | What the operations so far have left as their k-th result stays it, whatever follows. |
| Schedules.ResultUnderEverySchedule | server/core/server.cpp:417-724 | Whatever a cluster holds as a result of its recorded operations, server i holds its part of at the end of every schedule of calls, deliveries and receipts that cannot go on, after at most twelve moves an operation. |
| Schedules.AnswerUnderEverySchedule | server/core/server.cpp:712-724 | Hence the client makes the very same answer of a query under every such schedule. |
| Compile.RangeExact | client/core/client.cpp:1295-1346 | For every layout and 0 <= left <= right < numBuckets, all branches: one to three leaves, in bounds, pairwise disjoint, whose union is exactly [left, right]. |
| Compile.PointExact | client/core/client.cpp:1112-1131 | The single leaf of a point is in bounds and holds exactly at its bucket. |
| Compile.FssExact | client/core/client.cpp:1464-1500 | The two function-secret-sharing leaves of a single-sided interval never hold together and one holds exactly inside the interval. |
| Compile.EncodingsAgree | client/core/client.cpp:1013-1052 | For every layout and single-sided interval the VB bit vector, the VBFSS full-block plus boundary sum, the BO leaves and the BOFSS leaves are the same 0/1 function of the bucket. |
| Compile.OrFoldIsProduct | server/core/server.cpp:1832-1856 | Folding values with x + y + x*y gives the product of (1 + value) minus 1, for every nonempty list. |
| Compile.OrFoldOfBits | server/core/server.cpp:1832-1856 | On 0/1 values the fold is 2^k - 1 where k of them are 1. |
| Compile.UnionIffAtMostOne | server/core/server.cpp:600-606 | On 0/1 values the fold is their union if and only if at most one is 1. |
| Compile.OrFoldOfDisjoint | server/core/server.cpp:1371-1392 | On pairwise disjoint 0/1 values the fold is the 0/1 indicator of the union. |
| Regroup.ParseBofss | server/core/server.cpp:1097-1203 | For any order of primitives: accepted iff nonempty, all for one known table, with both keys nonempty and the table's block count or block size as domain, and, up to the largest predicate index, as many block as offset primitives and at least one; then leaf k of a predicate pairs the block and the offset primitive that k of their kind precede. |
| BofssLeaves.SelectOfAlternating | client/core/client.cpp:1403-1425 | In the client's order the block (offset) primitives of a predicate are every other primitive at that predicate's leaf positions, and the number of predicates is the leaves'. |
| BofssLeaves.EmittedIsKeyed | server/core/server.cpp:1130-1203 | What the client emits, regrouped at the three servers, gives each predicate its own leaves with placed keys: regrouping undoes emission. |
| BofssLeaves.PointPackPair | client/core/client.cpp:1375-1389 | Serialized point packs, read back and evaluated over the domain, open to the point's mask. |
| BofssLeaves.ComparePackPair | client/core/client.cpp:1391-1401 | Serialized comparison packs, read back and evaluated over the domain, open to the comparison's mask, constant plans included. |
| BofssLeaves.PlacedIsMaterial | client/core/client.cpp:1375-1401 | Three pairs placed by share index evaluate, at the servers that hold that share of the table, to query vectors that open to the mask. |
| BofssLeaves.EvalKey | server/core/server.cpp:1248-1266 | A key is evaluated iff it parses, has the domain and dimension asked for, and holds one constant, or one key over a power of two; the vector is its share at every point. |
| BofssLeaves.EvalPrimitive | server/core/server.cpp:1248-1266 | First key as party 0, second as party 1; fails iff either does. |
| BofssLeaves.EvalLeafKeys | server/core/server.cpp:1241-1296 | Both halves of a leaf, at domain sizes blockNum and blockSize. |
| BofssMeaning.FssAnswers | client/core/client.cpp:1464-1500 | The leaves of one BOFSS predicate, evaluated and folded by OR, answer 1 exactly on the buckets in the interval -- or nowhere, on a layout whose point keys have a one-point domain. |
| BofssMeaning.FssMeaning | client/core/client.cpp:1358-1501 | The grouped leaves of a whole BOFSS query weigh every row as the query does, with unsupported intervals read as empty. |
| BofssMeaning.NothingWeighs | client/core/client.cpp:1475-1496 | On an unsupported layout every row weighs 0, so the answer is 0 under AND and under OR. |
| BofssMeaning.SentFssIsAccepted | server/core/server.cpp:1097-1203 | Every message the client sends is accepted at a server that has the table with that layout. |
| MixedPlacement.AnswersRightIff | server/core/server.cpp:1465-1664 | Query vectors give the right answer on every one-hot sharing of every row -- the six dot products of the three servers sum to the mask at the row's bucket -- if and only if each of the three pairs, as placed, opens to the mask. |
| MixedPlacement.MixedRightIff | client/core/client.cpp:925-965 | With the second halves placed as VBFSS places them, the answer is right on every row and every sharing if and only if the three pairs have the same first halves mod 2^125. |
| MixedPlacement.PointLeafRightIff | client/core/client.cpp:925-950 | The same for generated point packs of any domain, target, payload, seeds and AES; equal seeds for the three pairs are enough. |
| MixedPlacement.CompareLeafRightIff | client/core/client.cpp:952-978 | The same for generated comparison packs, keyed or constant. |
| MixedPlacement.MixedFails | client/core/client.cpp:925-950 | Generated point packs over two buckets whose seeds differ, with an AES that returns zero: a row in the target bucket is answered with 2 instead of 1. |
| PlainFilters.DPFTableClient.GenDpfTableKeys | secure-indices/core/DPFTable.cpp:37-46 | Adds the pair for x with payload 1, and in malicious mode one with the MAC key, at the end of the client's list; the first one stays where it is. |
| PlainFilters.DPFTableClient.GenerateDPFFilter | client/core/client.cpp:450-470 | Three pairs are generated and three times the same one is sent: all servers get equal bytes, which open to the first point the client was ever asked for. |
| PlainFilters.DCFTableClient.GenDcfTableKeys | secure-indices/core/DCFTable.cpp:42-55 | Adds the two pairs of an interval, for left and for right + 1, and in malicious mode their MAC pairs, at the end of the list. |
| PlainFilters.DCFTableClient.GenerateDCFFilter | client/core/client.cpp:472-495 | The same for intervals: the bytes sent open to the first interval. |
| PlainFilters.SameAnswers | server/core/server.cpp:386-403 | One pair sent three times is answered with what it opens to, on every sharing of every row. |
| PlainFilters.PointQueries | client/core/client.cpp:450-470 | Any number of point queries at one client are all answered with the indicator of the first point's bucket; query i's answer is the indicator query i asks for if and only if its point is the bucket the first one named (on a tree of one leaf: if no bucket is asked for). |
| PlainFilters.StalePointIff | secure-indices/core/DPFTable.cpp:48-53 | The first point's mask is the mask asked for under exactly that condition. |
| PlainFilters.PointRightIff | secure-indices/core/DPFTable.cpp:48-53 | A pair that opens to the first point's mask answers another point right, on every sharing of every row, under exactly that condition. |
| PlainFilters.IntervalQueries | client/core/client.cpp:472-495 | Any number of interval queries at one client are all answered with the first interval's value; query i's answer is the indicator query i asks for if and only if the boundaries name the same buckets as the first ones, or neither asks for any bucket. |
| PlainFilters.StaleIntervalIff | secure-indices/core/DCFTable.cpp:57-64 | The first interval's value is the mask asked for under exactly that condition. |
| PlainFilters.IntervalRightIff | secure-indices/core/DCFTable.cpp:57-64 | A pair that opens to the first interval's value answers another interval right, on every sharing of every row, under exactly that condition. |
| Filters.DotsOpen | server/core/server.cpp:1735-1756 | The six dot products of one query column against one-hot row shares open to the mask's value at the row's bucket. |
| Filters.DotIsSum | server/core/server.cpp:1735-1756 | A dot product in wrapping words is the sum of the products mod 2^128. |
| Filters.AggShareIsSum | server/core/server.cpp:1045-1060 | A server's answer is the sum over the rows of three products -- first value by first filter share, second by first, first by second -- mod 2^128. |
| Filters.AggregateOpens | server/core/server.cpp:1045-1060 | The three answers open to the values weighted by the filter. |
| Filters.AndStands | server/core/server.cpp:596-598 | AND of filters standing for two vectors mod 2^125 stands for their products. |
| Filters.OrStands | server/core/server.cpp:600-606 | OR stands for x + y + x*y. |
| Filters.FoldOfAnds | server/core/server.cpp:1866-1889 | The AND fold of 0/1 values is 1 exactly when all are. |
| TableShares.SelectionStands | server/core/server.cpp:1735-1785 | Dot products reshared stand, row by row, for the mask at the row's bucket. |
| TableShares.LeafStands | server/core/server.cpp:1790-1806 | Block part AND offset part stands for the leaf's product at each row's block and offset. |
| TableShares.FoldSnoc | server/core/server.cpp:1866-1889 | Combining one more predicate extends the row-wise fold by one step. |
| TableShares.LoadedAll | client/core/client.cpp:1563-1596 | After all rows are uploaded the servers together hold one-hot shares of every bucket of the window. |
| TableShares.RowIsShared | client/core/client.cpp:1612-1646 | Of every row of a held table the three servers' first copies add up to 1 at column bucket / blockSize (for offsets, bucket mod blockSize) and to 0 at all others, and each server's second copies are its successor's first. |
| Emission.GroupsOfEmitted | server/core/server.cpp:1671-1690 | Grouping leaves by predicate index gives back, for every predicate, the client's list of leaves in order. |
| Emission.GroupsWeigh | server/core/server.cpp:1832-1889 | If each predicate's leaves answer as its interval, the combined filter weighs every row as the query does: 0/1 under AND, 2^k - 1 under OR for k satisfied predicates. |
| Emission.EmittedMeaning | client/core/client.cpp:1205-1352 | The leaves of every BO query, point or interval, AND or OR, grouped and folded as the servers do, weigh every row as the query. |
| Emission.AndSumsRows | server/core/server.cpp:1045-1060 | Under AND the weighted sum is the sum over the rows that satisfy every predicate. |
| Answers.AskableInside | client/core/client.cpp:1293-1305 | The intervals of a query lie in the domain iff its numbers do: points below the number of buckets, boundaries 2p and 2p + 1 in order and below it. |
| Answers.AskableCompiles | client/core/client.cpp:1464-1500 | Over keys, iff in addition every range starts with bucket 0 or ends with the last. |
| Answers.WeightCounts | server/core/server.cpp:1832-1889 | A row weighs, under AND, 1 iff its bucket meets every predicate's own numbers; under OR 2^k - 1 for the number k of predicates whose numbers it meets. |
| Answers.CountedSum | server/core/server.cpp:1045-1060 | The weighted sum is the sum of the values of the rows, each as often as the query's numbers make it count. |
| Answers.EmittedCounts | client/core/client.cpp:1205-1352 | The leaves of a BO query, grouped and folded, count every row as the query's numbers say, whatever its bucket. |
| Answers.KeyedCount | client/core/client.cpp:1358-1501 | So do those of a BOFSS query -- but nothing at all with a single block, or, for points, with blocks of one bucket. |
| QueryServer.LayoutSplits | server/core/server.cpp:249-279 | Accepted parameters give 2^logBlockNum blocks, each of numBuckets / 2^logBlockNum buckets, none empty. |
| QueryServer.QueryServer.FinishSystemInit | server/core/server.cpp:185-188 | Stores the predecessor's key and nothing else. |
| QueryServer.QueryServer.AdjustPRFCounter | server/core/server.cpp:708-710 | The counter advances by the amount mod 2^128. |
| QueryServer.QueryServer.GetNextSecretShareOfZero | server/core/server.cpp:697-701 | The share plus the own key's output at the counter input is the predecessor key's output at it, mod 2^128. |
| QueryServer.QueryServer.FillZeroShares | server/core/server.cpp:726-738 | Position pos plus the own key's output at counter input start + pos is the predecessor key's output there. |
| QueryServer.QueryServer.AllocZeroRows | server/core/server.cpp:1817-1830 | Word j of row i is the predecessor key's output less the own key's at counter input i * w + j, and the counter moves past all of them. |
| QueryServer.QueryServer.RSSReshareInnerLoop | server/core/server.cpp:417-422 | In place: each word plus the own key's output becomes the sum of its two copies plus the predecessor key's output, at one input for the whole set. |
| QueryServer.QueryServer.PrepareReshare | server/core/server.cpp:431-456 | Every word of set k's message, plus the own key's output at input k * sets + length, is the sum of the word's two copies plus the predecessor key's output there; the counter moves by sets times length. |
| QueryServer.QueryServer.MultiplyLocal | server/core/server.cpp:608-626 | Row r of the message is x0*y0 + x1*y0 + x0*y1 plus the row's zero share, mod 2^128. |
| QueryServer.QueryServer.AddOperands | server/core/server.cpp:600-606 | Both shares of row r become the product's plus both operands', mod 2^128. |
| QueryServer.QueryServer.FinishMultiply | server/core/server.cpp:712-724 | Fills the free mailbox with the message. |
| QueryServer.QueryServer.TakeShares | server/core/server.cpp:468-512 | Returns the mailbox's message and leaves it free. |
| QueryServer.QueryServer.DotRows | server/core/server.cpp:1735-1756 | Every row's dot product with the query vector, mod 2^128. |
| QueryServer.QueryServer.EvalLeaf | server/core/server.cpp:1735-1756 | First copies of a leaf's vectors against first copies of the tables, second against second. |
| QueryServer.QueryServer.AggregateFilter | server/core/server.cpp:1045-1060 | The server's three-term share of the sum over the value list; a missing list sums to 0. |
| QueryServer.QueryServer.AddBOTable | server/core/server.cpp:249-279 | Refused for a log of 31 or more, no buckets, or a number of buckets that 2^logBlockNum does not divide, and then nothing changes; otherwise exactly this table is replaced, by zeros in 2^logBlockNum blocks of numBuckets / 2^logBlockNum, with the first row next to append to. |
| QueryServer.QueryServer.BOTableUpdate | server/core/server.cpp:327-350 | Writes one row of the four share tables; a row outside the window or an unknown table is refused (an append moves the pointer even so). |
| QueryServer.QueryServer.AddValList | server/core/server.cpp:190-195 | Replaces exactly this list by zeros and sets its append position to the start. |
| QueryServer.QueryServer.ValListUpdate | server/core/server.cpp:309-316 | Changes exactly one position of both copies; an append writes at the list's append position and moves it on. |
| QueryServer.QueryServer.BOCheckFilter | server/core/server.cpp:1892-1918 | Accepted iff nonempty, for one known table, with every vector of the table's shape. |
| QueryServer.QueryServer.BOGroupFilter | server/core/server.cpp:1666-1690 | Accepted iff nonempty, for one known table, every vector as long as the table's block count or block size, and no predicate index below another one missing; the groups are, per index, exactly its leaves' positions in ascending order. |
| Cluster.Cluster.constructor | server/core/server.cpp:146-188 | Three fresh servers, each with its own key and its predecessor's, equal counters, free mailboxes and no tables. |
| Cluster.Cluster.Exchange | server/core/server.cpp:464-480 | The messages exchanged are those of one operation after the operations so far, which is then recorded; everyone receives its predecessor's message and mailboxes are free again. |
| Cluster.Cluster.AllocZeroRows | server/core/server.cpp:1817-1830 | The rows of the three servers cancel, word by word, and word j of row k is each server's zero share at input k * w + j; counters stay equal. |
| Cluster.Cluster.Multiply | server/core/server.cpp:608-680 | One exchange over two results of earlier operations and zero shares drawn for them ends in the product vector, as the next recorded result. |
| Cluster.Cluster.MultiplyHalves | server/core/server.cpp:1790-1811 | Zero shares for all leaves drawn first, then one product a leaf: leaf k is the AND of its halves masked with row k, and a recorded result. |
| Cluster.Cluster.EvalGrouped | server/core/server.cpp:1705-1890 | The batch of a grouped message ends in a filter that stands for the fold over predicates, and is a recorded result. |
| Cluster.Cluster.EvalPreds | server/core/server.cpp:1218-1395 | Predicate by predicate, every filter stands for the OR of its leaves and is a recorded result. |
| Cluster.Cluster.RSSReshare | server/core/server.cpp:431-512 | Every set comes out as the stated reshare of it with its own zero shares: replicated, its sum kept; it is one recorded operation whose results these are; counters stay equal and advance by sets times length. |
| Cluster.Cluster.MaskAll | server/core/server.cpp:431-456 | Every word of a server's message, plus its own key's output at the set's input, is the sum of the word's two copies plus its predecessor key's output there. |
| Cluster.Cluster.AndFilters | server/core/server.cpp:596-680 | Over the real exchange the three servers end with the vectors of AndOpens. |
| Cluster.Cluster.OrFilters | server/core/server.cpp:600-606 | Over the real exchange the three servers end with the vectors of OrOpens. |
| Cluster.Cluster.FoldFilters | server/core/server.cpp:1864-1889 | The loop over any list of filters stands for the row-wise fold of what they stand for; product k is masked with row k of zero shares drawn for it. |
| Cluster.Cluster.InitBOTable | client/core/client.cpp:1563-1578 | The three servers get the same table of zeros under the id, of 2^logBlockNum blocks of numBuckets / 2^logBlockNum, all other tables kept. |
| Cluster.Cluster.DotLeaves | server/core/server.cpp:1735-1756 | Every leaf's dot products at the three servers, leaf by leaf. |
| Cluster.Cluster.ReshareHalves | server/core/server.cpp:1757-1789 | One exchange reshares the block and the offset halves of all leaves; each comes back in its place. |
| Cluster.Cluster.EvalLeaves | server/core/server.cpp:1735-1811 | Dot products, one merged reshare and an AND: every leaf stands for its value on every row. |
| Cluster.Cluster.OrLeaves | server/core/server.cpp:1832-1857 | The running index into the evaluated leaves gives every predicate the OR of its own leaves. |
| Cluster.Cluster.CombinePreds | server/core/server.cpp:1860-1889 | The filter stands for the AND or the OR fold over the predicates. |
| Cluster.Cluster.BOEvalFilter | server/core/server.cpp:1666-1890 | Answers iff the message is accepted; then the filter stands for the fold over predicates of the OR over their leaves, row by row, and is a result of the recorded operations, all earlier ones kept. |
| Cluster.Cluster.EvalPredKeys | server/core/server.cpp:1241-1296 | The three servers' evaluations of one predicate's keys are query material for its leaves' masks. |
| Cluster.Cluster.EvalPred | server/core/server.cpp:1234-1395 | One predicate of a BOFSS filter stands for the OR of its leaves. |
| Cluster.Cluster.BOFSSEvalFilter | server/core/server.cpp:1097-1463 | Answers iff the primitives are acceptable; then the filter stands for the fold over predicates of the OR over their leaves, and is a result of the recorded operations, all earlier ones kept. |
| Cluster.Cluster.Aggregate | server/core/server.cpp:1045-1060 | The three answers open mod 2^125 to the weighted sum. |
| QueryClient.QueryClient.SplitIntoArithmeticShares | secure-indices/core/common.cpp:101-111 | Shares 0 and 1 of value i are the words 2i and 2i + 1 drawn, each below 2^64, and the three shares sum to it mod 2^128. |
| QueryClient.QueryClient.SplitIntoSingleArithmeticShares | secure-indices/core/common.cpp:113-120 | The first two shares are the two words drawn, and the three sum to the value mod 2^128. |
| QueryClient.QueryClient.CreateIndicatorVector | secure-indices/core/common.cpp:67-73 | 1 at the index, 0 elsewhere. |
| QueryClient.QueryClient.RegisterBOTableMeta | client/core/client.cpp:1598-1610 | Refused for a log of 31 or more, no buckets, or a number of buckets that 2^logBlockNum does not divide, and then nothing changes; otherwise the layout recorded is 2^logBlockNum blocks of numBuckets / 2^logBlockNum. |
| QueryClient.QueryClient.AddBOTable | client/core/client.cpp:1563-1596 | On success, with that layout recorded, the three servers hold one-hot shares of exactly the given buckets. |
| QueryClient.QueryClient.SendTable | client/core/client.cpp:1563-1596 | A fresh table of that layout at every server, then row by row: the three servers end with one-hot shares of the buckets. |
| QueryClient.QueryClient.BOTableUpdate | client/core/client.cpp:1612-1646 | One more row of the window is shared, earlier rows stay. |
| QueryClient.QueryClient.AddValList | client/core/client.cpp:224-254 | The three servers hold replicated shares of exactly the given values. |
| QueryClient.QueryClient.ValListUpdate | client/core/client.cpp:376-387 | One more value is shared, earlier ones stay. |
| QueryClient.QueryClient.ShareMask | client/core/client.cpp:1150-1157 | The words drawn, and what completes them to the selector mod 2^125. |
| QueryClient.QueryClient.GenerateBaseBOFilter | client/core/client.cpp:1133-1199 | Six stretches of fresh words, block vectors first, and their complements are placed so that at the servers holding each share index they open to the masks. |
| QueryClient.QueryClient.EmitRange | client/core/client.cpp:1295-1346 | The branches append exactly the leaves RangeExact is about. |
| QueryClient.QueryClient.GenerateCombinedBOFilter | client/core/client.cpp:1205-1352 | Succeeds iff the table is known, the query nonempty (even in length for ranges) and every point below the number of buckets or every pair of boundaries 2p, 2p + 1 in order and below it; the three messages then open to masks that, grouped and folded, count a row in any bucket as those numbers say. |
| QueryClient.QueryClient.SumUp | client/core/client.cpp:750-769 | The three servers' answers added and reduced are the values weighted by what the filter stands for, mod 2^125. |
| QueryClient.QueryClient.BOAggQuery | client/core/client.cpp:722-769 | End to end, for any table, values, query and randomness: succeeds iff the table is known and the query's own numbers are as above, and returns the sum mod 2^125 of the values of the rows -- under AND those whose bucket is query[p], or lies from query[2p] to query[2p + 1], for every p; under OR each 2^k - 1 times for the k predicates it so meets -- made of the three answers over a filter that is a result of the servers' recorded operations. |
| QueryClient.SentIsAccepted | server/core/server.cpp:1892-1918 | Every BO message the client sends is accepted at a server that has the table. |
| QueryClient.QueryClient.GenPlacedKeys | client/core/client.cpp:1375-1401 | Three key pairs for the primitive's mask, each from the next seeds (and, for a comparison, the next word) of the client's streams, placed by share index; fails iff the domain is not a power of two. |
| QueryClient.QueryClient.EmitPrimLeaf | client/core/client.cpp:1403-1425 | Appends the block and offset primitive of one leaf to all three messages. |
| QueryClient.QueryClient.EmitPredicate | client/core/client.cpp:1464-1500 | Appends exactly the leaves FssExact (or a point's) is about. |
| QueryClient.QueryClient.GenerateCombinedBOFSSFilter | client/core/client.cpp:1358-1501 | Succeeds iff the table is known, the query's numbers are as for BO, every range starts with bucket 0 or ends with the last, and both domains are powers of two; the message then opens to masks that count a row in any bucket as those numbers say, or nothing with one-point domains. |
| QueryClient.QueryClient.FilterByVectors | client/core/client.cpp:722-748 | Vectors generated, sent, grouped and evaluated: succeeds iff the table is known and the query's numbers are as above, with a filter that counts every row as they say. |
| QueryClient.QueryClient.SendVectors | client/core/client.cpp:722-748 | Sent to three servers that hold the table, the leaves of a valid query come back as a filter that weighs every row as the query does. |
| QueryClient.QueryClient.FilterByKeys | client/core/client.cpp:828-860 | Keys generated, sent, regrouped and evaluated: succeeds under exactly those conditions, with a filter that counts every row as the query's numbers say, or nothing with one-point domains. |
| QueryClient.QueryClient.SendKeys | client/core/client.cpp:828-860 | The same for the primitives of a valid keyed query. |
| QueryClient.QueryClient.BOFSSAggQuery | client/core/client.cpp:828-898 | End to end through key generation, serialization, regrouping, evaluation, reshare, AND, OR and aggregation: succeeds under exactly those conditions and returns the sum BOAggQuery states over the query's own numbers, or 0 with a single block, or, for points, with blocks of one bucket. |
| Sessions.Setup | client/tests/bench.cpp:128-142 | From nothing but randomness and data to three servers holding the shared table, in 2^logBlockNum blocks, and values. |
| Sessions.Ask | client/tests/bench.cpp:144-204 | One query of any kind on a set-up client: an error exactly where its numbers cannot be asked of numBuckets buckets, or, over keys, numBuckets is no power of two or a range has two sides; otherwise the sum of the values as the numbers count them, or 0 over keys for logBlockNum = 0 and, for points, numBuckets = 2^logBlockNum; and the client is ready for the next. |
| Sessions.QuerySession | client/tests/bench.cpp:128-204 | Fresh servers, one upload, then any list of queries of any kinds, refused ones among them: answer i is the one just stated for query i, in terms of its numbers, numBuckets and logBlockNum alone, whatever was asked before it, with no precondition on server state. |
| Sessions.AppendSession | client/core/client.cpp:256-275 | From six empty trees, any number of appends up to capacity: recombining the shares of any node gives the fold of the values below it, and the trees' keys are the indices sent iff all of these are below 2^32. |
| TreeShape.UnderIsOnPath | secure-indices/core/Tree.cpp:246-258 | A node covers a leaf exactly when it lies on the leaf's path to the root. |
| TreeShape.FullIff | secure-indices/core/Tree.cpp:205-222 | rightIdx is not the sentinel exactly when the node's last leaf is present. |
| TreeShape.LeftHalfFullIff | secure-indices/core/Tree.cpp:205-222 | Above the parents of leaves, midIdx is not the sentinel exactly when the left half is full. |
| TreeShape.LeftStep | secure-indices/core/Tree.cpp:246-258 | Coming from the left child, the update leaves the node's three indices as they are specified for one more key. |
| TreeShape.RightStep | secure-indices/core/Tree.cpp:246-258 | The same coming from the right child. |
| TreeShape.FieldsElsewhere | secure-indices/core/Tree.cpp:231-265 | Indices of nodes off the new leaf's path do not change. |
| TreeShape.FieldsIndex | secure-indices/core/Tree.cpp:231-265 | For keys in any order: leftIdx is the first leaf's key and rightIdx the last leaf's, each the sentinel while that leaf is missing. Above the parents of leaves midIdx is the sentinel until the left half is full, then one more than that half's last key, and once the right half has a leaf the smaller of that and the right half's first key. |
| TreeValues.RunIsFold | secure-indices/core/Tree.cpp:98-112 | After any run of appends within capacity, every node's aggregate is the fold of the values below it, the sentinel if there are none. |
| TreeValues.PathListUnique | secure-indices/core/AggTree.cpp:121-135 | The list of aggregates on the append path is determined by the tree. |
| AggTree.Node.Absorb | secure-indices/core/Tree.cpp:246-258 | From the left child: the smaller leftIdx, and, once the child's right half is full, the larger of midIdx and the child's rightIdx plus one. From the right child: the smaller of midIdx and the child's leftIdx, and the larger rightIdx. The sentinel gives way to either. |
| AggTree.RootNode.constructor | secure-indices/core/Tree.cpp:39-44 | A valid tree with no leaves: every internal node present, every index and aggregate the sentinel. |
| AggTree.RootNode.FillEmptySubtree | secure-indices/core/Tree.cpp:20-37 | The queue loop builds every node down to depth maxDepth - 2, linked in breadth-first order. |
| AggTree.RootNode.GetAppendParent | secure-indices/core/Tree.cpp:205-229 | The descent by sentinels reaches the parent of the next free leaf, in every valid tree with room, and reports a full tree exactly when it is full (for maxDepth above 2). |
| AggTree.RootNode.AppendFromParent | secure-indices/core/Tree.cpp:231-265 | Keeps the tree valid with one more leaf at the right end, every node's own three indices being what FieldsIndex says of the keys; the path's aggregates become the given ones, all others stay. |
| AggTree.RootNode.AppendValue | secure-indices/core/Tree.cpp:189-203 | The same with each path node's aggregate taking in the new value. |
| AggTree.AppendRun | secure-indices/core/Tree.cpp:189-203 | A whole list appended to one linked tree: every node's aggregate is the fold of the values below it, its own three indices are what FieldsIndex says of the keys, in whatever order these come, rightIdx differs from the sentinel exactly on full nodes and midIdx exactly on nodes with a full left half. |
| AggTree.RootNode.ReadPath | secure-indices/core/AggTree.cpp:121-135 | The aggregates from the next leaf's parent up to the root. |
| AggTree.RootNode.RaisePath | secure-indices/core/Tree.cpp:193-200 | The same, each with the new value taken in. |
| SharedAppend.AggTreeIndexServer.GetAppendPath | secure-indices/core/AggTree.cpp:121-135 | Returns the path and remembers its parent; tree unchanged. |
| SharedAppend.AggTreeIndexServer.FinishAppend | secure-indices/core/AggTree.cpp:138-142 | Appends the leaf with the given aggregates and is ready for the next one. |
| SharedAppend.CombineIsExact | secure-indices/core/common.cpp:76-88 | Recombining the shares of a node gives its plaintext aggregate, and the first share shows the sentinel exactly when the node is empty. |
| SharedAppend.CombinePaths | secure-indices/core/common.cpp:76-88 | The in-place combination, word by word, minding the sentinel. |
| SharedAppend.PropagateNewVal | secure-indices/core/AggTree.cpp:55-60 | The value followed by every path aggregate with the value taken in. |
| SharedAppend.CopiesAgree | client/core/client.cpp:413-418 | The client's consistency check passes in every state the protocol reaches. |
| SharedAppend.AppendShares | client/core/client.cpp:423-438 | Fresh shares of the raised path turn shares of the plaintext tree into shares of the plaintext tree with the value appended. |
| SharedAppend.AggTreeAppend | client/core/client.cpp:389-448 | One protocol run: the six trees stay of one shape, hold six copies of three shares, and these share the plaintext tree after the plaintext append. |
| SharedAppend.AppendAll | client/core/client.cpp:389-448 | The same after every sequence of appends within capacity; every node's own indices are those of the keys kept, which are the low 32 bits of the indices sent and thus these themselves iff every one is below 2^32; and server i's two trees hold shares i and i + 1. |
| SharedAppend.IndicesKeptIff | client/core/client.cpp:389-448 | What the servers keep of a list of 64-bit indices is the list itself if and only if every index is below 2^32. |
| SharedAppend.MinusOneIsKeptAs | client/tests/bench.cpp:474-474 | The benchmark's index of -1 is kept as 2^32 - 1. |
| SharedAppend.FieldsAsSent | secure-indices/core/AggTree.cpp:138-142 | Under that condition increasing indices stay increasing, and a full node's leftIdx and rightIdx are the first and the last of the indices sent for the leaves below it and bound them all. |
| SharedAppend.OrderIsLost | secure-indices/core/AggTree.cpp:138-142 | Above it they need not: the increasing indices 5 and 2^32 leave the root with rightIdx below leftIdx. |
| SharedAppend.SharesOpenToFolds | client/core/client.cpp:389-448 | Whatever shares the protocol has left in a node open to the fold of the values below it. |
| BulkBuild.BuildFromEntries | secure-indices/core/Tree.cpp:46-72 | First-in-first-out pairing of 2^(maxDepth-1) entries ends in one perfect tree: root at depth 0, leaves in order, and every other node over its two children, its leftIdx the left one's, its midIdx the right one's leftIdx, its rightIdx the right one's, its aggregate the two aggregates'. |
| BulkBuild.BulkAgreesWithAppends | secure-indices/core/Tree.cpp:46-72 | For maxima and minima every node's aggregate is the one sequential appends leave, whatever the values. For sums it is so if and only if pairing and appending read a partial sum as the sentinel the same number of times mod 2^128. |
| BulkBuild.SumsAgree | secure-indices/core/Tree.cpp:46-72 | If no contiguous run of the values below a node sums to the sentinel mod 2^128, both orders leave the node the sum mod 2^128. |
| BulkBuild.SumsPart | secure-indices/core/Tree.cpp:98-112 | Where they part: over 1, 5, 2^128 - 7, 3 appending leaves 3 at the root and pairing 2. |
| BulkBuild.FoldTotal | secure-indices/core/Tree.cpp:98-112 | Appending one by one leaves the sum mod 2^128, plus one for every partial sum read as the sentinel. |
| BulkBuild.BulkTotal | secure-indices/core/Tree.cpp:46-72 | Pairing leaves the sum mod 2^128, plus one for every partial sum read as the sentinel. |
| BulkBuild.FoldIsExtreme | secure-indices/core/Tree.cpp:98-112 | For the other two functions appending leaves the greatest, or the least, of the values with the sentinel read as their identity. |
| BulkBuild.BulkFieldsAgree | secure-indices/core/Tree.cpp:46-72 | For increasing keys leftIdx and rightIdx agree with the appended tree everywhere; midIdx agrees above the parents of leaves iff the two halves' adjoining keys are consecutive. |

## Left out

- VB, VBFSS and plain DPF/DCF filter queries end to end: their masks, their agreement with BO and BOFSS, what is sent and what its placement answers are modelled, not their message plumbing.
- `rollup`, `eval_agg_tree` and `AggTreeQuery`: the code does not settle what they should compute; an append to a full tree is outside the contracts.
- The malicious-mode MAC batch check: its coefficient shares are oriented opposite to the data shares, so what it opens is not the plain product. Servers are modelled with the malicious flag off; MAC keys are generated, serialized, read back, evaluated and multiplied into the table, and their answers proved to open to the MAC key times the plain ones, but the servers' check of them is not modelled.
- The EMP transport, gRPC and its failures, JSON configuration, timers, printing and allocation. A message that one server accepts and another refuses would leave the others waiting; the contracts of `Cluster.Cluster.BOEvalFilter` and `Cluster.Cluster.BOFSSEvalFilter` require the three to agree, which the client's messages are proved to do.
- Threads and OpenMP loops run sequentially; queries running concurrently on one server are not modelled.
- AES and the random generator's internals, and any secrecy claim.
- The one-bit comparison function (`keyGenDCF`, `evalOneDCF`), unused on the query path.
- `EvalFilter`: its chunked zero-share fill belongs to the plain DPF/DCF filters.
- Output size and modulus are fixed to 125 bits and 2^125, the only values the query paths pass.
- Counter inputs and table sizes are unbounded where the code uses 32-bit loop indices; key and message words, counters, thresholds and domain sizes carry their widths.
- Table and value uploads are sent row by row, not in size-bounded batches.
- `getDepth` of common.cpp: it uses floating-point logarithms; depths are inputs.
- DPFServer.ContigDomainDPFLargeOutOptimized: requires a power-of-two length, as the code asserts, and a range no longer than the tree has leaves; on a longer one the code leaves cells unwritten.
- DPFServer.ContigEvalOneDPFLarge: requires what its callers pass: a power-of-two range no longer than the subtree, ending no later than `end`.
- DCFServer.ContigDomainDCFLargeOutOptimized: likewise.
- DCFServer.ContigEvalOneDCFLarge: likewise.
- DCFServer.EvalTablePartA: from depth 14 on requires chunks of power-of-two lengths, which the code asserts in every worker.
- DcfTable.IcEvalDcfTable: likewise, and at most as many cores as buckets, since the last index of an empty chunk wraps around.
- KeyObjects.SvKey.DcfDeserialize: requires enough bytes, since the code copies without checking.
- KeyObjects.SvKey.DpfDeserialize: likewise.
- BofssLeaves.EvalKey: requires the inner keys of a parsed pack to be as long as the domain's depth needs, since the code reads them unchecked.
- VectorFssOps.EvalAllFlatVdpf: likewise.
- VectorFssOps.EvalAllFlatVdcf: likewise.
- VectorFssOps.EvalPointVdpf: likewise.
- VectorFssOps.EvalPointVdcf: likewise.
- QueryServer.QueryServer.ValListUpdate: requires a known list and a position inside it, since the code writes unchecked.
- AggTree.RootNode.constructor: requires maxDepth of at least 2; for 0 and 1 the code's queue loop looks for depth maxDepth - 2, never meets it and never ends.
- AggTree.RootNode.AppendFromParent: requires room and an index below 2^64 - 2, since 2^64 - 1 is the sentinel and midIdx holds an index plus one; the append protocol's indices are 32 bits wide, and a full tree would be rolled up.
- AggTree.RootNode.AppendValue: likewise.
- Cluster.Cluster.RSSReshare: the buffers passed between servers are sequences; updating them in place is modelled only inside the per-set loop.
- Freed memory and destructors.
