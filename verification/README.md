# rag-cpp: verified core

A Dafny model of the retrieval engine's algorithms, with proofs of what they promise. One module per component; classes
and methods stand for the code's objects and loops, ghost functions say what those loops compute, and lemmas prove the
properties of these functions.

- **Lexical search** (`Postings`, `Wand`, `Bm25Spec`, `Bm25Ranking`, `Bm25Index`, `TopK`, `ScoreHeap`): the BM25 index, its
  derived tables, BlockMax-WAND pruning and the exhaustive paths. Main results: pruning is exact (`CompareSearches`), and the
  scores are those of the texts (`ScoreFromTexts`) and put rarer terms first (`RarerScoresHigher`).
- **INFLATE** (`BitStream`, `Huffman`, `Inflate`, `InflateRaw`, `Deflate`, `DeflateNumbers`): the decoder of RFC 1951 against
  an encoder written for the proof, and the numbers both share against the rules of the RFC. Main results:
  `InflateUndoesDeflate`, `NextCode`, `FixedCodes`.
- **Reranking** (`Greedy`, `Mmr`, `Dartboard`): greedy selection with cached state. Main results: `GreedyIsNearOptimal`, and
  the cached loops make the picks of the textbook forms, whose limiting cases rank by score or by dissimilarity alone.
- **Document graph** (`Adjacency`, `MinLabels`, `LabelPropagation`, `Oscillation`, `PageRank`): communities and personalized
  PageRank. Main results: every label change improves a potential exactly when no group of neighbours starves a node
  (`AllImproveIffNoneStarves`), the labels come to rest without negative weights (`Propagate`) and need not with them
  (`NegativeWeightsOscillate`), and iteration is a contraction on distributions along the link weights (`StepFollowsWeights`).
- **HNSW** (`HnswGraph`, `LayerSearch`, `Selection`, `HnswLinks`, `HnswInsert`, `HnswIndex`, `WaveSearch`, `WaveLinks`,
  `WaveGroups`, `BulkBuild`, `WaveOfOne`, `Csr`, `Unseal`): layer search, neighbour selection, insertion, bulk build in waves,
  sealing and unsealing. Main results: `SearchFinds`, `AddedKeeps`, `WaveIsScheduleIndependent`, `WaveKeeps`,
  `WaveOfOneInserts`, `BuildStartsOneByOne`, `UnsealIndex`.
- **Durability** (`Bytes`, `Crc32`, `Container`, `Wal`, `StoredBytes`, `TornTail`, `Recovery`, `CheckpointWindow`, `Corpus`):
  checksums, the container format, the write-ahead log and recovery. Main results: `CrashRecovery`, `SecondRecoveryNeedsBoundary`,
  `CheckpointCrash`, `ChangedPayloadByte`, `ChangedLengthLooksTorn`, `OneByteChangeIsRejected`.
- **Product quantization** (`Kmeans`, `Pq`), **ranking metrics** (`Metrics`) and the **LRU cache** (`Lru`). Main results:
  `IterationKeeps`, `NearestCodeIsOptimal`, `ScoreIsDot`, `NeverExceedsIffDistinct`, `OnlyIdealOrderIsIdeal`,
  `LargerHoldsMore`.

`Wrappers`, `Arithmetic`, `Sets` and `Sums` are shared helpers.

Conventions: floating-point numbers are exact reals. The logarithm, the exponential, the discount, similarities and vector
normalisation are arbitrary functions with only the facts stated where they enter (positive above 1, positive, positive and
non-increasing, length-preserving). Sorting and heaps are insertion into sorted lists, so results are stated up to the order
of equal scores where that order is left open. Reading a hash map is choosing its entries in an arbitrary order. Random
levels and initial centroids are arbitrary inputs. Texts reach the index as the term sequences of an arbitrary tokenizer.

## Where the code and its comments differ

- `src/graph/graph.cpp:285` calls label propagation synchronous; the loop updates the labels in place, and that is what
  `Sweep` models. A similarity threshold of 0 or below (line 266) lets through edges under which a change need not be an
  improvement (`ZeroWeightWorsens`, `AllImproveIffNoneStarves`).
- `include/rag/graph/graph.hpp:72` says the loop converges far earlier than its round cap; with negative weights it may never
  (`NegativeWeightsOscillate`).
- `src/store/container.cpp:46` gives the header 32 bytes; the code writes and counts 28, as does the model.
- `src/loaders/ooxml.cpp:174-175` skips the complement of a stored block's length without comparing it, so such a block is
  accepted whatever the complement is (`ReadStored`).
- `src/index/hnsw.cpp:181-183` says the restored shape matches what the build produced; trailing empty layers are lost
  (`RoundTripNeedsFullTop`, `LoneNodeLosesItsLayers`), as by an entry node alone in the top layer (`LoneEntryLosesTop`);
  `UnsealIndex` says exactly when the index invariant that later additions rely on survives.
- `src/index/hnsw.cpp:626-630` has a re-added id supersede its old node; the bulk build only drops the id index
  (`BatchKeepsOneLive` says exactly when that is enough).
- `include/rag/index/hnsw.hpp:183-186` describes per-node spinlocks and optimistic reads; the code links in waves without
  locks (`src/index/hnsw.cpp:514-610`), which is what the bulk build models.
- `src/store/wal.cpp:204` takes a record that reaches past the end of the file for a torn append, and line 211 one that ends
  there and fails its checksum. The length field is outside the checksum, so a changed length in the middle of the log drops
  acknowledged records without an error if and only if it points past the end, or onto the end with a payload that fails its
  checksum or does not decode (`ChangedLengthLooksTorn`).
- `src/index/corpus.cpp:765` reopens the log for appending behind a torn tail. Behind 1 to 3 bytes the next replay fails;
  behind 4 or more the records logged after the restart are taken for the rest of the torn one, and lost without an error
  while they are shorter than the length read there (`ReplayAfterTornTail`). The second recovery is right if and only if the
  crash left whole frames (`SecondRecoveryNeedsBoundary`), which the size of the file after replay would tell.
- `src/index/corpus.cpp:735` promises exactly the corpus the original run had. An upsert is replayed exactly if and only if at
  most one live document had its uri (`UpsertReplaysExactlyWhenUnique`), an `add_document` if and only if its uri was not
  live (`AddReplaysExactlyWhenNew`), and a log wherever it is cut if and only if all its additions were of uris not live
  (`LogReplaysExactlyWhenAddsAreNew`).
- `src/index/corpus.cpp:775-778` calls the log safe to drop once the snapshot is on disk; between the two steps a crash leaves
  both, and replay then adds everything once more: a document added and removed since the last checkpoint comes back
  (`CheckpointCrash`, `RemovedComesBack`).
- `src/index/corpus.cpp:64-67` reports a failed append as if nothing had happened; when only the flush failed the record is
  replayed after a restart (`FailedAppendReplays`). Lines 56-58 do not look at the outcome of the removal an upsert starts
  with (`UpsertIsAllOrNothing`).
- `src/lexical/bm25.cpp:29` overwrites the frequency of an id added again, but postings of terms no longer in its text and its
  old length stay (`AddIsExactIffUnused`).

## Model

| member | source | states |
|---|---|---|
| Bm25Index.Index.CompareSearches | src/lexical/bm25.cpp:400-447 | the documented claim "same top-k as the exhaustive path": for every finalized index, query (repeated terms included) and k, the pruned and the exhaustive search return equally many hits with the same score at every position |
| Bm25Index.Index.SearchWand | src/lexical/bm25.cpp:228-393 | the pruned search returns min(k, matching) hits in descending order, each with its document's exact score, and no omitted document scores higher; it declines exactly when a derived table it needs is empty |
| Bm25Index.Index.Search | src/lexical/bm25.cpp:395-514 | whichever path is taken, the result is a top-k of the exact scores of all matching documents; with an increasing logarithm a listed document always comes after those that match only a rarer query term, at least as often, in a text that is no longer |
| Bm25Index.ScoreFromTexts | src/lexical/bm25.cpp:54-83 | the score of a document for one term from the texts alone: with f occurrences in its dl terms, N documents of which n hold the term, and texts of avg terms on average, it times f + k1 (1 - b + b dl / avg) is ln((N + 1) / (n + 1/2)) f (k1 + 1) |
| Bm25Ranking.RarerScoresHigher | src/lexical/bm25.cpp:486-506 | of two documents that each hold one of the query's terms, the one whose term is rarer scores strictly higher, when that term is asked for no less often, is in it no less often, and the document is no longer |
| Bm25Ranking.OneTermScore | src/lexical/bm25.cpp:486-506 | a document with only one of the query's terms scores that term's share times its multiplicity in the query |
| Bm25Ranking.IdfClosed | src/lexical/bm25.cpp:110-115 | the idf is the logarithm of (N + 1) / (n + 1/2) |
| Bm25Ranking.IdfFalls | src/lexical/bm25.cpp:110-115 | the more documents hold a term, the strictly less it counts, for every increasing logarithm |
| Bm25Ranking.SaturationRises | src/lexical/bm25.cpp:74-78 | more occurrences weigh more but never more than k1 + 1, strictly so when k1 is positive and the length counts or b is below 1 |
| Bm25Ranking.SaturationFalls | src/lexical/bm25.cpp:74-78 | longer documents weigh no more, and strictly less when k1 and b are positive |
| Bm25Ranking.SaturationUnit | src/lexical/bm25.cpp:74-78 | one occurrence in a document of average length weighs 1 |
| Bm25Index.ListCountsTexts | src/lexical/bm25.cpp:23-34 | a term's list is as long as the number of documents whose text holds the term |
| Bm25Index.OccurrencesCount | src/lexical/bm25.cpp:19-21 | the term frequency is the multiplicity of the term in the text |
| Bm25Index.Index.SearchExhaustive | src/lexical/bm25.cpp:407-514 | the paths that score every posting return a top-k of the same scores |
| Bm25Index.SearchDense | src/lexical/bm25.cpp:414-447 | term-at-a-time accumulation of precomputed weights with a touched list ranks exactly the matching documents by their exact scores |
| Bm25Index.SearchRecomputed | src/lexical/bm25.cpp:449-514 | recomputing each weight from the document length gives a top-k of the same scores, also for a sparse id space |
| Bm25Index.Index.Add | src/lexical/bm25.cpp:14-37 | for every id, new or used: which postings are in afterwards, and what the lengths and their total are; the tables still hold exactly the counts of the documents, the new text in place of an old one, if and only if the id was unused or its old text was empty; only a non-empty document invalidates the derived tables |
| Bm25Index.AddIsExactIffUnused | src/lexical/bm25.cpp:14-37 | overwriting postings term by term and adding the new length on top leaves the tables exact if and only if the id was unused or its old text empty, for otherwise the old length stays in the total |
| Bm25Index.Index.Finalize | src/lexical/bm25.cpp:39-108 | every derived table agrees with the counts of the documents added so far, and the average length is their total length over their number |
| Bm25Index.Index.ScoreDoc | src/lexical/bm25.cpp:192-215 | binary search per query term gives the same exact score the ranking paths accumulate, zero for an unknown document |
| Bm25Index.AddIndexes | src/lexical/bm25.cpp:23-34 | extending each list by one document's posting turns tables for a set of documents into tables for that set plus the document |
| Bm25Index.InsertPosting | src/lexical/bm25.cpp:24-30 | the list stays sorted by document; the new posting is in, an older one for the same document is out, all others stay |
| Bm25Index.LowerBound | src/lexical/bm25.cpp:27-28 | splits a sorted list into postings before the document and postings from it on |
| Bm25Index.BuildDense | src/lexical/bm25.cpp:46-52 | the dense mirror exists exactly when the ids are dense enough, and then agrees with the length map, 0 marking unused ids |
| Bm25Index.BuildWeights | src/lexical/bm25.cpp:54-83 | every term's span of the flat weight array holds the saturated frequency of each of its postings, whichever source the length was read from |
| Bm25Index.BuildMeta | src/lexical/bm25.cpp:89-105 | each term has block metadata that describes exactly its own weights |
| Bm25Index.StartCursors | src/lexical/bm25.cpp:252-286 | cursors over the distinct query terms, frequencies folded into idf, together score every document exactly as the whole query with its repetitions does |
| Bm25Index.CursorShare | src/lexical/bm25.cpp:255-279 | folding a term's query frequency into its idf equals adding its score once per occurrence |
| Bm25Index.DenseAccountComplete | src/lexical/bm25.cpp:419-439 | an accumulator that is non-zero exactly on the touched documents lists every matching document once with its score |
| Bm25Spec.IdfPositive | src/lexical/bm25.cpp:110-115 | the smoothed idf of every indexed term is strictly positive |
| Bm25Spec.ScorePositiveIffMatches | src/lexical/bm25.cpp:486-506 | scores are non-negative, and positive exactly for the indexed documents that contain a query term |
| Bm25Spec.ScoreWithinAdd | src/lexical/bm25.cpp:255-262 | a term repeated in the query contributes its multiplicity times its single score |
| Postings.BuildBlocks | src/lexical/bm25.cpp:95-104 | block b covers postings 128b to 128(b+1) and records their last document and the largest of 0 and their weights |
| Postings.BlockMaxBounds | src/lexical/bm25.cpp:289-295 | posting i lies in block i/128 and weighs at most that block's maximum |
| Wand.SearchCursors | src/lexical/bm25.cpp:310-392 | the whole pivot loop ends, the postings left unread shrinking every round, with a top-k of the scores its cursors define |
| Wand.SkipTo | src/lexical/bm25.cpp:299-308 | hopping blocks and scanning stops exactly at the first posting at or after the target, having passed no other, and moves forward whenever the target is ahead |
| Wand.FindPivot | src/lexical/bm25.cpp:324-333 | the term maxima before the pivot do not exceed the threshold and including the pivot they do; without a pivot no document ahead can beat the threshold |
| Wand.UnreadBound | src/lexical/bm25.cpp:324-334 | a document none of whose postings were passed scores at most the term maxima of the cursors that stand at or before it |
| Wand.AlignedBound | src/lexical/bm25.cpp:337-352 | the exact score of the aligned document is at most the sum of the current-block maxima of the cursors standing on it |
| Wand.PrunedSettled | src/lexical/bm25.cpp:349-355 | pruning the front document on its block bound leaves out nothing that could enter the top k |
| Wand.PrunedFrontier | src/lexical/bm25.cpp:353-354 | advancing only one aligned cursor past a pruned document is safe: the cursors left on it stay below the threshold |
| Wand.SkippedAreSettled | src/lexical/bm25.cpp:373-380 | documents jumped over while the front cursors catch up with the pivot cannot beat the threshold |
| Wand.ScoreAligned | src/lexical/bm25.cpp:356-362 | the aligned cursors yield the document's exact score and all move past it |
| Wand.AdvanceBelow | src/lexical/bm25.cpp:377-380 | exactly the cursors before the pivot move, each to its first posting at or after the pivot |
| Wand.Admit | src/lexical/bm25.cpp:363-372 | offering a document keeps a heap of at most k exact scores whose smallest entry is the threshold once it is full, and everything settled stays settled |
| Wand.RunComplete | src/lexical/bm25.cpp:322-333 | when the loop stops, every matching document is in the heap or scores no more than the threshold |
| Wand.AllMovedShrinks | src/lexical/bm25.cpp:317-382 | a round that moves the front cursor leaves strictly fewer postings unread |
| TopK.TopKScoresAgree | src/lexical/bm25.cpp:384-392 | any two top-k lists of the same scores have the same score sequence, however they break ties |
| TopK.PrefixIsTopK | src/lexical/bm25.cpp:441-446 | the first k of a complete list sorted by score are a top-k |
| Deflate.InflateUndoesDeflate | src/loaders/ooxml.cpp:145-277 | for every list of stored, fixed and dynamic blocks of valid literals and back-references, encoded per sections 3.2.3 to 3.2.7 of RFC 1951, with any padding bits and any value in the field for the complement of a stored length, the decoder returns exactly the LZ77 expansion when it is within the cap, whatever bytes follow |
| Deflate.EveryOutputHasAnEncoding | src/loaders/ooxml.cpp:145-277 | every byte string within the cap is the output of some stream, so the round trip is not about a special class of outputs |
| InflateRaw.InflateRaw | src/loaders/ooxml.cpp:145-277 | on every input the decoder ends, with the output or with the very error the decoding function gives, errors being found in the same order; no output exceeds 256 MB |
| DeflateNumbers.SampleInflates | src/loaders/ooxml.cpp:145-277 | the five bytes 4b 4c 42 82 00 inflate to "ababababababa": two literals and a match of length 11 two bytes back, in the fixed codes |
| Deflate.LengthSymbols | src/loaders/ooxml.cpp:133-136 | section 3.2.5 of RFC 1951: from symbol 265 on four length symbols share each number of extra bits, the ranges of symbols 257 to 284 are contiguous from 3 on, and symbol 285 is 258 without extra bits |
| Deflate.DistanceSymbols | src/loaders/ooxml.cpp:137-141 | section 3.2.5: from symbol 4 on two distance symbols share each number of extra bits, and their ranges are contiguous from 1 to 32768 |
| DeflateNumbers.ClenPlaced | src/loaders/ooxml.cpp:195-201 | section 3.2.7: the three-bit lengths of the code length code are sent for 16, 17, 18, 0, then outwards from 8, and those not sent are 0 |
| DeflateNumbers.TableSizes | src/loaders/ooxml.cpp:186-193 | section 3.2.7: a dynamic header names 257 to 286 literal and length symbols and 1 to 30 distance symbols by its first two five-bit fields |
| DeflateNumbers.RepeatCodes | src/loaders/ooxml.cpp:213-227 | section 3.2.7: symbol 16 repeats the previous length 3 to 6 times, 17 sends 3 to 10 zeros and 18 sends 11 to 138, by 2, 3 and 7 extra bits |
| DeflateNumbers.FixedCodes | src/loaders/ooxml.cpp:150-157 | section 3.2.6: the fixed codes of literals 0 to 143 start at 00110000, of 144 to 255 at 110010000, of 256 to 279 at 0000000, of 280 to 287 at 11000000, each group counting up |
| DeflateNumbers.FixedDistanceCodes | src/loaders/ooxml.cpp:158-160 | section 3.2.6: each distance symbol is its own five-bit code |
| DeflateNumbers.FirstCode | src/loaders/ooxml.cpp:48-66 | section 3.2.2: the first symbol by length and symbol has the code 0 |
| DeflateNumbers.NextCode | src/loaders/ooxml.cpp:48-66 | section 3.2.2: the next symbol by length and symbol has the next code, with zeros appended when it is longer; with FirstCode this determines every code |
| DeflateNumbers.CodesTurnedRound | src/loaders/ooxml.cpp:100-117 | section 3.1.1: codes are packed most significant bit first, other numbers least significant bit first |
| DeflateNumbers.CopyBackRepeats | src/loaders/ooxml.cpp:268-269 | every byte of a back-reference is the one `distance` before it, its own bytes included, and what was there before stays |
| Huffman.DecodeInvertsCode | src/loaders/ooxml.cpp:100-117 | whenever the length table is accepted, decoding the canonical code of section 3.2.2 of RFC 1951 of any symbol, followed by any bits, gives that symbol and consumes exactly the code |
| Huffman.Huffman.Build | src/loaders/ooxml.cpp:48-66 | the table is accepted exactly when no code length is over-subscribed, and then lists the symbols by (length, symbol) |
| Huffman.Kraft | src/loaders/ooxml.cpp:54-59 | codes used and unused at each length add up to all bit strings of that length: the running count the acceptance test keeps is the number of unused codes |
| Huffman.FillSymbols | src/loaders/ooxml.cpp:60-64 | the counting sort puts the j-th symbol of each length j places after that length's offset |
| Huffman.DecodeFinds | src/loaders/ooxml.cpp:101-115 | the walk over lengths, part of the way into a symbol's code, goes on to find that symbol |
| Huffman.NotYet | src/loaders/ooxml.cpp:106-114 | a proper prefix of a symbol's code is never mistaken for a shorter code |
| InflateRaw.DecodeSymbol | src/loaders/ooxml.cpp:100-117 | one table walk returns the decoded symbol and leaves exactly the bits after its code, or -1 when there is none |
| InflateRaw.SymbolAt | src/loaders/ooxml.cpp:106-111 | in an accepted table the looked-up slot exists, so the range check never fires |
| BitStream.BitReader.Bit | src/loaders/ooxml.cpp:76-86 | the next bit of the stream, low bit of each byte first, or -1 at the end |
| BitStream.BitReader.ReadBits | src/loaders/ooxml.cpp:88-96 | n bits as a number, first bit least significant, or -1 when fewer are left |
| BitStream.BitReader.Align | src/loaders/ooxml.cpp:98-98 | the rest of a partly read byte is dropped and nothing else |
| BitStream.BytesToBitsToBytes | src/loaders/ooxml.cpp:76-86 | packing bits into bytes and reading them back is the identity |
| InflateRaw.ReadStored | src/loaders/ooxml.cpp:169-179 | a stored block yields its bytes and the position after them, or short, overrun and too-large errors in that order; the complement field is not looked at |
| InflateRaw.StoredBytes | src/loaders/ooxml.cpp:169-179 | section 3.2.4: a stored block on a byte boundary is two bytes of length, low byte first, two more bytes, and then that many bytes of output |
| InflateRaw.CopyBytes | src/loaders/ooxml.cpp:268-269 | a back-reference copies byte by byte, so a copy may overlap what it appends |
| InflateRaw.ReadMatch | src/loaders/ooxml.cpp:249-269 | the part of a back-reference after its length symbol, all six error cases included, does what the decoding function does |
| InflateRaw.ReadCodes | src/loaders/ooxml.cpp:239-270 | the symbols of a compressed block up to end-of-block; every symbol consumes a bit, so the loop ends |
| InflateRaw.ReadClen | src/loaders/ooxml.cpp:195-201 | the three-bit lengths land in the positions section 3.2.7 of RFC 1951 orders them by |
| InflateRaw.ReadLengths | src/loaders/ooxml.cpp:206-231 | the run-length coded lengths of both tables, repeat symbols and their error cases included |
| InflateRaw.ReadHeader | src/loaders/ooxml.cpp:185-237 | a dynamic header gives both code length tables with matching decoding tables, or the first error met |
| InflateRaw.FixedTables | src/loaders/ooxml.cpp:150-161 | the fixed tables of section 3.2.6 of RFC 1951 are accepted and represented |
| InflateRaw.ReadBlock | src/loaders/ooxml.cpp:169-273 | a block of any type, the reserved one included, is decoded as the decoding function does |
| Inflate.BlockShrinks | src/loaders/ooxml.cpp:163-275 | no block gives bits back: the unread bits are a termination measure |
| Deflate.CodedInverts | src/loaders/ooxml.cpp:239-270 | decoding a compressed block gives the LZ77 expansion of its tokens and stops right after end-of-block |
| Deflate.MatchInverts | src/loaders/ooxml.cpp:249-269 | every length 3 to 258 and distance 1 to 32768 is decoded from its symbol and extra bits |
| Deflate.LengthCovered | src/loaders/ooxml.cpp:133-136 | the length table leaves no gap: each length is its symbol's base plus an offset that fits the extra bits |
| Deflate.DistanceCovered | src/loaders/ooxml.cpp:137-141 | the distance table leaves no gap either |
| Deflate.HeaderInverts | src/loaders/ooxml.cpp:186-234 | a dynamic header decodes to exactly the two code length tables it encodes, for every way of choosing runs |
| Deflate.StoredInverts | src/loaders/ooxml.cpp:169-179 | a stored block at any bit offset, whatever its padding bits and complement field, decodes to its bytes |
| Deflate.FixedEncodes | src/loaders/ooxml.cpp:150-161 | every valid token has a code in the fixed tables |
| Dartboard.GreedyIsNearOptimal | src/rerank/dartboard.cpp:100-128 | k greedy picks are worth at least 1 - (1 - 1/k)^k of any selection of at most k candidates, worth being blended relevance plus weighted coverage |
| Dartboard.Select | src/rerank/dartboard.cpp:100-128 | the loop with cached coverage picks exactly what recomputing the coverage at every step picks, and so a near-optimal selection of k |
| Dartboard.Rerank | src/rerank/dartboard.cpp:15-134 | the whole call for every configuration: clamped blend, normalised relevance, softmax intent weights, symmetric similarities, and min(k, n) near-optimal picks; a more relevant candidate has the larger intent weight when exp is increasing, and with all the weight on relevance the picks are in order of score, as the code's comment promises |
| Dartboard.GapAfter | src/rerank/dartboard.cpp:108-128 | after t picks the gap to any selection of at most k candidates is at most (1 - 1/k)^t of its worth |
| Dartboard.OutsideGains | src/rerank/dartboard.cpp:113-121 | submodularity: if no candidate gains more than g now, then any m candidates together add at most m g |
| Dartboard.RaiseCover | src/rerank/dartboard.cpp:127-127 | after the update the cached array is the true coverage of the selection with the new document |
| Dartboard.ScoreCandidate | src/rerank/dartboard.cpp:113-121 | the score computed from the cache is the candidate's true gain over the current selection |
| Dartboard.IntentWeights | src/rerank/dartboard.cpp:37-40 | non-negative weights that add up to 1, in the ratio of exp(rel / sigma), and with an increasing exp larger for more relevant intents |
| Dartboard.SoftmaxWeighs | src/rerank/dartboard.cpp:37-40 | dividing by the sum makes the weights add up to 1 and keeps their ratios and their order |
| Dartboard.AllRelevance | src/rerank/dartboard.cpp:119-121 | at alpha 1 the selection is in order of score |
| Dartboard.CoverIsMaximum | src/rerank/dartboard.cpp:100-103 | how well an intent is covered is the maximum of 0 and the similarities of the selection to it |
| Dartboard.SimilarityMatrix | src/rerank/dartboard.cpp:89-98 | one evaluation per pair gives a symmetric matrix with ones on the diagonal |
| Mmr.MmrSelect | src/rerank/mmr.cpp:66-103 | the loop with the cached running maximum makes, at every step, the pick of the textbook objective that recomputes each candidate's largest similarity to the chosen set |
| Mmr.Rerank | src/rerank/mmr.cpp:24-109 | the whole call for every candidate list, lambda and k: lambda clamped to the nearest point of [0, 1], relevance scaled between the smallest and the largest score, the textbook selection, and exactly min(k, n) picks when every similarity is below 1e30; at lambda 1 and above the picks are in order of score, at 0 and below each is as little similar to those before it as any left |
| Mmr.BalanceEnds | src/rerank/mmr.cpp:93-94 | at lambda 1 the picks are in descending order of score and nobody left out scores higher; at 0 each pick has the smallest largest similarity to those before it |
| Mmr.NeverDominated | src/rerank/mmr.cpp:93-94 | for every lambda a candidate that is both more relevant and less similar to the picks so far is never passed over |
| Mmr.ClampIsNearest | src/rerank/mmr.cpp:28-28 | clamping gives the nearest point of [0, 1] |
| Mmr.MaxSimIsMaximum | src/rerank/mmr.cpp:72-86 | the textbook term is the maximum of 0 and the similarities to the chosen documents |
| Mmr.FoldIn | src/rerank/mmr.cpp:99-102 | folding in only the newest document keeps every remaining candidate's cache equal to the full recomputation |
| Mmr.PickBest | src/rerank/mmr.cpp:89-96 | the scan finds the first remaining candidate with the largest score above the floor, or none |
| Mmr.Normalise | src/rerank/mmr.cpp:31-36 | scores land in [0, 1] and keep their order strictly, for a constant list too; the smallest becomes 0 and, unless the spread is at most 1e-9, the largest 1, distances kept in proportion |
| Greedy.RunUnique | src/rerank/mmr.cpp:88-103 | the per-step choices determine the selection: two greedy runs of the same scores are equal, so cached and textbook form pick the same documents in the same order |
| Greedy.RunDistinct | src/rerank/mmr.cpp:91-98 | no candidate is selected twice |
| LabelPropagation.RelabelPotential | src/graph/graph.cpp:292-299 | giving a node another label changes the total weight of same-label links by twice the difference of the two labels' votes |
| LabelPropagation.ChangeImproves | src/graph/graph.cpp:288-300 | a change of label raises the weight of same-label links, or keeps it and lowers the sum of labels, if and only if the old label was some neighbour's, or the new one has positive votes, or it has none and is smaller |
| LabelPropagation.AllImproveIffNoneStarves | src/graph/graph.cpp:288-300 | for weights of any sign: every change from every labelling improves if and only if each node with links has positive total weight, or no group of its neighbours weighs between -1 and 0 together |
| LabelPropagation.AllImproveIffFed | src/graph/graph.cpp:288-300 | with totals above -1 that is when each node with links has positive total weight |
| LabelPropagation.AllImproveIffSomeWeight | src/graph/graph.cpp:288-300 | without negative weights that is when each node with links has one link of positive weight |
| LabelPropagation.ZeroWeightWorsens | src/graph/graph.cpp:266-299 | with a similarity threshold of 0 an edge of weight 0 makes node 0 take label 1: no more agreement and a larger sum of labels |
| LabelPropagation.FedPicksWinner | src/graph/graph.cpp:289-298 | in a node of positive total weight the label settled on has positive votes and is the heaviest, the smallest on ties |
| LabelPropagation.SettledIsStable | src/graph/graph.cpp:300-301 | when no node changes any more and every node with links has positive total weight, each has a heaviest neighbouring label |
| LabelPropagation.ChangeCloser | src/graph/graph.cpp:288-300 | when every node with links has positive total weight or only links of weight 0, every change raises same-label weight, or keeps it and lowers the labels of the first kind of nodes, or keeps both and lowers the unrest of the second kind |
| LabelPropagation.NonNegativeIsTame | src/graph/graph.cpp:266-283 | lists of non-negative links that run both ways are such a graph |
| LabelPropagation.EdgesAreTame | src/graph/graph.cpp:277-283 | and so are the lists made of edges of non-negative weight |
| MinLabels.TakingMinimumCalms | src/graph/graph.cpp:292-299 | a node without votes takes the smallest label it sees: done one node at a time this lowers an energy, labels weighted by degree less the minima over all pairs |
| MinLabels.UnrestChanges | src/graph/graph.cpp:292-299 | what any relabelling of one node does to that energy |
| Oscillation.NegativeWeightsOscillate | include/rag/graph/graph.hpp:69-72 | with negative weights, which a negative similarity threshold lets through, the labels of a four-node graph alternate between two labellings under every cap |
| LabelPropagation.Sweep | src/graph/graph.cpp:288-301 | for weights of any sign: one in-place sweep is the nodes taking their labels in turn, the flag says whether any label differs, and after an unchanged sweep no node would change; a changed sweep comes strictly closer to rest when every node with links has positive total weight or only links of weight 0, and improves the potential when all have positive total weight |
| LabelPropagation.Propagate | src/graph/graph.cpp:285-302 | the labels are those of the capped number of sweeps even when the loop stops early; without negative weights, links of weight 0 included, a cap above the number of labellings leaves labels that no node would change, and same-label weight never ends below where it started; with positive total weights the result is stable |
| LabelPropagation.RankFalls | src/graph/graph.cpp:288-302 | the number of labellings closer to rest strictly falls, so sweeps cannot go on for ever |
| LabelPropagation.BestLabel | src/graph/graph.cpp:292-298 | whatever order the vote map is read in, the label picked is the heaviest, the smallest on ties, the node's own label entering with -1 vote |
| LabelPropagation.CastVotes | src/graph/graph.cpp:292-293 | exactly the labels of neighbours get votes, each the total weight, of whatever sign, of the links to its bearers |
| LabelPropagation.VoteByBearers | src/graph/graph.cpp:291-296 | a label's vote is the weight of the links to all nodes that bear it, added up over the nodes |
| LabelPropagation.Compact | src/graph/graph.cpp:304-314 | communities are the same partition as the labels, numbered 0 to C - 1 without gaps in order of first appearance |
| Adjacency.Materialise | src/graph/graph.cpp:277-283 | whatever order the edge map is read in, the lists are a symmetric graph without self links whose weight between two nodes, of whatever sign, is that of their edge; every link has one back and carries its edge's weight |
| Adjacency.AddEdge | src/graph/graph.cpp:209-224 | the weight, of whatever sign, is added to the one undirected edge between the two nodes and no other; self edges are ignored |
| PageRank.PersonalizedPageRank | src/graph/graph.cpp:164-196 | the result is a probability distribution reached by the given number of iterations from the restart vector, and lies within (1 - a)^iters of the initial distance to any fixed point; with at least one iteration every node v gets at least a times its restart share, and from each node u at least (1 - a) times the mass u had before times the weight of its links to v over the total weight of its links |
| PageRank.StepFollowsWeights | src/graph/graph.cpp:177-190 | from a node whose links weigh anything the chance of walking to v is the weight of its links to v over their total weight; a node whose weights are all 0 walks like a restart |
| PageRank.StepRatio | src/graph/graph.cpp:185-187 | a node with a link of positive weight walks to any two nodes in the ratio of the weights, and nowhere else |
| PageRank.IterateReceives | src/graph/graph.cpp:182-192 | what every node receives in one iteration, from the restart and from each node by weight |
| PageRank.IterateKeepsDistribution | src/graph/graph.cpp:183-194 | every iteration turns a distribution into a distribution: dangling mass is not lost |
| PageRank.IterateContracts | src/graph/graph.cpp:183-194 | an iteration brings any two vectors closer in L1 by the factor 1 - a |
| PageRank.ConvergesToFixedPoint | src/graph/graph.cpp:183-195 | after t iterations from any vector the L1 distance to a fixed point is at most (1 - a)^t times the initial one |
| PageRank.FixedPointUnique | src/graph/graph.cpp:182-195 | with a positive restart probability there is at most one fixed point |
| PageRank.StepRowSum | src/graph/graph.cpp:176-190 | from every node, dangling ones included, the walk goes somewhere with probability 1 |
| PageRank.ArrivingTotal | src/graph/graph.cpp:184-193 | a step of the walk conserves total mass |
| PageRank.PushIsArriving | src/graph/graph.cpp:186-192 | pushing shares along links and spreading dangling mass over the restart vector is one step of the walk |
| PageRank.IterateInto | src/graph/graph.cpp:184-193 | the in-place pass leaves exactly the next iterate in the other buffer |
| PageRank.Scatter | src/graph/graph.cpp:184-190 | the scatter half: every node's incoming mass and the total mass of nodes without links |
| PageRank.Teleport | src/graph/graph.cpp:168-175 | the restart vector is a distribution proportional to the masses given per document, uniform when the graph's documents have none; documents outside the graph are ignored |
| LayerSearch.SearchFinds | src/index/hnsw.cpp:232-316 | on exit the result is min(ef, visited) nodes, best first, no visited node outside it is strictly more similar than one inside, and every neighbour of a returned node was visited |
| LayerSearch.NeighboursAreNoBetter | src/index/hnsw.cpp:232-316 | a neighbour of a returned node that is not returned itself is no more similar than any returned node |
| LayerSearch.WideBeamFindsAll | src/index/hnsw.cpp:232-316 | when the beam is at least as wide as the reachable part of the layer, the result is exactly the reachable set |
| LayerSearch.SearchLayer | src/index/hnsw.cpp:232-316 | the loop over heaps and epoch stamps returns what the search function defines, for any earlier use of the scratch |
| LayerSearch.Scratch.Reset | include/rag/index/hnsw.hpp:526-534 | nothing counts as visited after a reset, also when the 32-bit epoch wraps |
| LayerSearch.Scratch.Mark | include/rag/index/hnsw.hpp:535-539 | a node is new exactly the first time it is marked since the reset |
| LayerSearch.RoundKeeps | src/index/hnsw.cpp:260-308 | a round keeps the best of the visited nodes in the result and every kept node pending or expanded |
| LayerSearch.WeakFrontierIsDone | src/index/hnsw.cpp:264-264 | stopping at a candidate weaker than every kept node leaves no kept node unexpanded |
| LayerSearch.Progress | src/index/hnsw.cpp:260-308 | a round visits something new or shortens the frontier, so the search ends |
| HnswGraph.ClosedHoldsReachable | src/index/hnsw.cpp:291-307 | a set that holds the entry and every neighbour of its members holds everything reachable |
| Selection.SelectedIsWell | src/index/hnsw.cpp:335-359 | min(M, candidates) distinct candidates are selected: first a part in which each is at least as near to the node as to every earlier pick, cut short only when it covers all the rest, then the best of the rest |
| Selection.SelectNeighbours | src/index/hnsw.cpp:335-359 | the two early-exit loops pick the same list as the two full passes |
| Selection.DiverseIsSpread | src/index/hnsw.cpp:340-349 | the first pass never picks a covered candidate and leaves out only covered ones |
| Selection.BackfillTakesBest | src/index/hnsw.cpp:352-358 | the second pass keeps the first part and adds the best remaining candidates until M or none is left |
| Selection.ScoreAndSort | src/index/hnsw.cpp:382-397 | each candidate is scored once and listed best first |
| HnswLinks.BackLinkKeeps | src/index/hnsw.cpp:430-438 | linking back keeps every bound, prunes only an over-full list, and changes one list |
| HnswLinks.LinkedKeeps | src/index/hnsw.cpp:425-439 | installing a node's list and its back-links keeps the graph's bounds, touches only that node and its new neighbours, and each neighbour links back or is full |
| HnswInsert.InsertKeeps | src/index/hnsw.cpp:660-665 | joining a node to its layers keeps degree bounds, distinctness, no self-links and layer membership everywhere, leaves higher layers alone, and gives the node neighbours in each joined layer |
| HnswInsert.JoinedKeeps | src/index/hnsw.cpp:661-665 | joining one layer leaves the node ready to join the layer below, with exactly the selected neighbours |
| HnswInsert.DescendAvoids | src/index/hnsw.cpp:654-659 | the greedy descent never lands on the node being inserted |
| HnswInsert.DescendImproves | src/index/hnsw.cpp:654-659 | the descent ends at a node at least as similar as the one it started from, and no neighbour in the last layer it searched is more similar |
| HnswInsert.FirstIsLocallyBest | src/index/hnsw.cpp:232-316 | the best node a search returns is at least as similar as its entry and as all its own neighbours |
| HnswInsert.FoundInLayer | src/index/hnsw.cpp:661-663 | a layer search finds at least one node, each once, all of them belonging to the layer and none of them the new node |
| HnswIndex.AddedKeeps | src/index/hnsw.cpp:618-667 | one insertion keeps every bound of the graph, the entry node spanning all layers, and exactly one live node per id |
| HnswIndex.OneLiveNode | src/index/hnsw.cpp:626-633 | every id ever added has exactly one node that is not superseded, the newest |
| HnswIndex.Index.Add | src/index/hnsw.cpp:618-667 | over every run of additions of any ids and random levels: the index invariant holds, the vector is stored normalised, a tombstone is lifted, the graph is that of one insertion; a vector of another dimension changes nothing |
| HnswIndex.Index.Stage | src/index/hnsw.cpp:631-647 | the id's newest node, and only that one, becomes superseded, and the id index again maps every id to its newest node |
| HnswIndex.Index.EnsureIdIndex | src/index/hnsw.cpp:734-741 | a rebuilt index maps every id to its newest node |
| HnswIndex.Index.GreedyDescent | src/index/hnsw.cpp:654-659 | one best node per layer from the entry down to just above the level; it ends at least as similar to the query as the entry node, and as every neighbour in the layer above the level |
| HnswIndex.Index.JoinLayers | src/index/hnsw.cpp:660-665 | the loop performs exactly the insertion whose bounds are proved |
| HnswIndex.Index.Link | src/index/hnsw.cpp:425-439 | the in-place update of the neighbours' lists is the linking whose bounds are proved |
| HnswIndex.Index.SelectLinks | src/index/hnsw.cpp:409-416 | a node's list is the diversity selection among the found nodes, at most 2M of them in layer 0 and M above, which in terms of the stored vectors is a list chosen well |
| HnswIndex.LinksChosenWell | src/index/hnsw.cpp:378-416 | of distinct candidates the list takes min(2M, all) in layer 0 and min(M, all) above: first nodes at least as similar to the node as to those taken before, cut short only when every other candidate is more similar to one of them than to the node, then the best of the rest |
| HnswIndex.Index.SearchIsNearestAround | src/index/hnsw.cpp:700-707 | what the base-layer search finds is sorted by similarity to the query, starts at least as similar as the entry node, and no base-layer neighbour of a found node that was not found itself is more similar than any found node |
| HnswIndex.Index.WideBeamFindsEverything | src/index/hnsw.cpp:706-707 | with a beam as wide as the index and a base layer connected from where the descent lands, every node is found, so the hits are the exact nearest neighbours |
| HnswIndex.Fitted | src/index/hnsw.cpp:678-679 | a query vector of the index's dimension is used as it is, a longer one is cut, a shorter one is padded with zeros |
| HnswIndex.Index.SearchNearest | src/index/hnsw.cpp:669-732 | for every index, also one whose bulk build reused ids: the hits are a top-k, by exact score, of the found nodes that are neither superseded nor of a tombstoned id, named by id; by id they are a top-k when no two live nodes share an id; when nobody is left out an id occurs twice if and only if two returnable found nodes carry it; the found nodes are the nearest around (`SearchIsNearestAround`), and a query of the index's dimension is scored as it is after normalising |
| HnswIndex.Index.Tombstone | src/index/hnsw.cpp:743-743 | only the tombstone set changes |
| WaveSearch.WalksAreScheduleIndependent | src/index/hnsw.cpp:542-570 | however the walks of a wave are interleaved step by step, each ends with the lists it would choose running alone |
| WaveSearch.StepKeepsOutcome | src/index/hnsw.cpp:555-568 | no step of a walk changes the lists it will end with |
| WaveSearch.StepLowers | src/index/hnsw.cpp:555-568 | every step goes a layer down, visits more nodes, or shortens the frontier without visiting any, so no schedule goes on for ever |
| WaveSearch.WalksCanFinish | src/index/hnsw.cpp:542-570 | from every state the walks of a wave can be run to their end |
| WaveSearch.PicksAreOk | src/index/hnsw.cpp:549-568 | every list a node chooses is within its bound and names only nodes linked before the wave that have the layer |
| WaveSearch.PickLists | src/index/hnsw.cpp:546-569 | a node's own walk chooses exactly those lists |
| WaveLinks.GroupsAreScheduleIndependent | src/index/hnsw.cpp:593-608 | however the pushes and prunes of the groups are interleaved on the shared graph, it ends up as if the groups ran one after the other |
| WaveLinks.GroupsCanFinish | src/index/hnsw.cpp:593-608 | from every state the groups can be run to their end |
| WaveLinks.AllApplied | src/index/hnsw.cpp:593-608 | one after the other the groups are each merged and pruned into their own list, and nothing else changes |
| WaveLinks.AppliedUnique | src/index/hnsw.cpp:593-608 | the groups determine the resulting graph |
| WaveLinks.ApplyGroups | src/index/hnsw.cpp:593-608 | the loop over the groups gives that graph |
| WaveGroups.GroupsMatchPicks | src/index/hnsw.cpp:576-592 | after sorting by packed key and splitting, each group holds exactly the nodes of the wave that chose its list, and no two groups share a list |
| WaveGroups.CollectBacks | src/index/hnsw.cpp:576-587 | every chosen link is queued once under the key of the neighbour and layer it lands on |
| BulkBuild.WaveKeeps | src/index/hnsw.cpp:530-610 | after every wave the degree bounds and layer membership hold, exactly the wave's nodes became linked, and the entry node spans all layers in use |
| BulkBuild.WaveIsScheduleIndependent | src/index/hnsw.cpp:514-610 | a wave gives the sequential result for every interleaving of its walks and every interleaving of its back-link updates |
| BulkBuild.WaveHasSchedule | src/index/hnsw.cpp:514-610 | every wave has a complete schedule of its walks and one of its back-link updates |
| BulkBuild.BuildKeeps | src/index/hnsw.cpp:514-610 | the finished graph keeps every staged node and its layers and is within all bounds |
| BulkBuild.BatchKeepsOneLive | src/index/hnsw.cpp:456-484 | bulk staging marks nobody superseded, so it keeps one live node per id if and only if every staged id is new and staged once |
| BulkBuild.BatchSharesIds | src/index/hnsw.cpp:456-484 | after bulk staging two live nodes share an id if and only if some staged id was used before or is staged twice |
| BulkBuild.BatchedKeeps | src/index/hnsw.cpp:441-616 | a bulk build into an index of any content leaves a graph within all bounds with a spanning entry node |
| BulkBuild.BuildBatch | src/index/hnsw.cpp:441-616 | the call on an index: vectors of another dimension are skipped, the rest are stored, lifted from the tombstones and linked to exactly the graph described, the index invariant holds, and when anything was staged the graph is sealed into a packed form that answers every neighbour query as its lists do |
| BulkBuild.KeptIsAll | src/index/hnsw.cpp:456-459 | every vector of the right dimension is staged, and all of them in order when none is skipped |
| BulkBuild.IdsOfAll | src/index/hnsw.cpp:476-476 | exactly the ids of the staged vectors are lifted from the tombstones |
| BulkBuild.RunWave | src/index/hnsw.cpp:531-608 | the wave's two phases compute the wave's result |
| BulkBuild.LinkAll | src/index/hnsw.cpp:529-610 | the wave loop, wave sizes included, computes the whole build that `BuildFrom` defines |
| BulkBuild.WaveSize | src/index/hnsw.cpp:529-533 | a wave has one node or at most a sixteenth of the linked ones, never more than 4096 nor than are left, and is the largest such one |
| WaveOfOne.WaveOfOneInserts | src/index/hnsw.cpp:514-610 | a wave of one node leaves exactly the graph that inserting the node by itself, as `add` does, leaves |
| WaveOfOne.BuildStartsOneByOne | src/index/hnsw.cpp:524-533 | while fewer than 32 nodes are linked the bulk build inserts nodes one at a time, each into a graph of all nodes before it |
| WaveOfOne.SmallBatchIsOneByOne | src/index/hnsw.cpp:441-616 | a bulk build that leaves at most 32 nodes in the index inserts all its nodes one at a time |
| WaveOfOne.PicksAreLists | src/index/hnsw.cpp:549-568 | a walk above the node's own top layer is the greedy descent of an insertion, and from there down it chooses, layer by layer, the lists of one; layers above the graph's highest stay empty |
| WaveOfOne.InsertLists | src/index/hnsw.cpp:661-665 | joining layers one by one, each search running on the graph the layers above left, gives the lists chosen in the first graph, because a search reads its own layer only |
| WaveOfOne.SearchSameLayer | src/index/hnsw.cpp:232-316 | a search finds the same in any two graphs with the same lists in its layer |
| Csr.LookupIsNeighbours | include/rag/index/hnsw.hpp:466-477 | a sealed index answers every neighbour query exactly as before sealing |
| Csr.Seal | src/index/hnsw.cpp:69-94 | counting degrees, summing them up and copying gives offsets and blocks that hold every list of every layer |
| Csr.UnpackNode | src/index/hnsw.cpp:174-194 | unsealing restores a node's lists up to its last non-empty one |
| Csr.RoundTripNeedsFullTop | src/index/hnsw.cpp:174-194 | sealing and unsealing give a node back if and only if it has no lists or its top list is not empty |
| Csr.LoneNodeLosesItsLayers | src/index/hnsw.cpp:181-186 | a graph of one node loses all its layers that way, although its entry node is said to span them |
| Unseal.UnsealIndex | src/index/hnsw.cpp:174-194 | an addition to a sealed index starts by restoring every node's lists; the index invariant that linking relies on survives this if and only if every link leads to a node with a neighbour in the link's layer or above, every node has a neighbour, and the entry node has one in the top layer |
| Unseal.UnsealedGraph | src/index/hnsw.cpp:174-194 | the graph's bounds survive if and only if every link leads to a node with a neighbour in the link's layer or above |
| Unseal.LoneEntryLosesTop | src/index/hnsw.cpp:174-194 | an entry node alone in the top layer loses that layer, and the index its invariant |
| Recovery.CrashRecovery | src/index/corpus.cpp:728-785 | from a snapshot with one live document per uri, for every run of additions of uris not live, upserts, removes and checkpoints and every byte the crash may cut the log at, replay rebuilds documents, ids and tombstones as they were after exactly the completely logged records, and with the whole log the live corpus |
| Recovery.RunStaysRecoverable | src/index/corpus.cpp:54-77 | every run of additions of uris not live, upserts, removes and checkpoints stays recoverable: any prefix of what was logged replays to its original effect |
| Recovery.UpsertReplaysExactlyWhenUnique | src/index/corpus.cpp:743-760 | replaying what an upsert logged gives what the upsert gave if and only if at most one live document had its uri |
| Recovery.AddReplaysExactlyWhenNew | src/index/corpus.cpp:743-760 | replaying a logged addition, which the replay turns into an upsert, gives what the addition gave if and only if its uri was not live |
| Recovery.LogReplaysExactlyWhenAddsAreNew | src/index/corpus.cpp:728-760 | a log replays to its original effect wherever it is cut if and only if each of its additions was of a uri not live at that point |
| CheckpointWindow.CheckpointCrash | src/index/corpus.cpp:772-785 | for every run, a crash after a checkpoint saved its snapshot and before it truncated the log: recovery appends every document added since the last checkpoint once more, rebuilds the live corpus if and only if there is none, and shows the same document under a uri if and only if that uri was not added since or is still live |
| CheckpointWindow.RemovedComesBack | src/index/corpus.cpp:772-785 | so a document added and removed again before the checkpoint is live after such a crash |
| CheckpointWindow.ReplayShows | src/index/corpus.cpp:739-761 | replay over any state whose removals are done shows, under every uri, the document added last, and otherwise what was there |
| Recovery.PrefixReplaysExactly | src/index/corpus.cpp:743-760 | a crash between the removal and the addition an upsert logs is replayed faithfully as well |
| Recovery.RecordsHaveEffect | src/index/corpus.cpp:54-77 | the records a mutation logs have, in order, exactly its effect |
| Recovery.LoggedDocument | src/index/corpus.cpp:54-80 | replaying what an addition or upsert logged appends a document with exactly its uri, title, text and metadata |
| Recovery.MutationKeepsUnique | src/index/corpus.cpp:54-60 | upserts, removes and additions of uris not live keep at most one live document per uri |
| TornTail.ReplayAfterTornTail | src/store/wal.cpp:187-224 | for every log, every torn tail and every later records: no tail loses nothing, 1 to 3 bytes make the replay fail with a bad magic, longer ones make it read a length across the joint (exactly the magic, at least 0x41570000, or the torn record's own length) and drop, reject or misread what follows, stated case by case |
| TornTail.SecondRecoveryNeedsBoundary | src/index/corpus.cpp:765-765 | recovery after a restart that reopened the log is right, whatever was logged in between, if and only if the crash left whole frames |
| TornTail.TornTailLosesTheNext | src/index/corpus.cpp:765-765 | behind every torn tail there is a next record that the second recovery does not bring back |
| TornTail.FailedAppendReplays | src/store/wal.cpp:137-159 | a failed append is replayed as if it had not happened if and only if part of its frame is missing; when only the flush failed the record comes back |
| Corpus.Corpus.UpsertDocument | src/index/corpus.cpp:54-60 | for every outcome of the two log writes: success exactly when the addition was logged, the contents by which of removal and addition went through, and the bytes both writes leave in the log; on success the last document has the given fields |
| Corpus.UpsertIsAllOrNothing | src/index/corpus.cpp:54-60 | the live document is replaced if and only if the addition went through and the removal, if one was due, did too; nothing changes if and only if neither did; so an error can lose the old document, and a success can leave two live ones |
| Corpus.Corpus.AddDocument | src/index/corpus.cpp:62-80 | log before mutate: the document is appended if and only if the log, when open, took and flushed the whole record; otherwise the documents are unchanged, and the log holds what was written; on success the last document has the given uri, title, text and metadata, and those before it are the old ones |
| Corpus.Corpus.RemoveDocument | src/index/corpus.cpp:498-516 | an unknown or removed id writes nothing and fails; otherwise the tombstone is set if and only if the record was logged and flushed, and the log holds what was written |
| Corpus.Corpus.FindByUri | src/index/corpus.cpp:680-687 | the first live document with that non-empty uri |
| Corpus.Restart | src/index/corpus.cpp:728-766 | a corpus loaded from the snapshot that opens any crash-cut log of any run holds exactly the effect of the completely logged records, and with the whole log stands where the run stopped |
| Corpus.Corpus.Checkpoint | src/index/corpus.cpp:772-785 | the log is emptied exactly after a snapshot of the contents was saved; success means that both happened and were flushed |
| Corpus.Corpus.OpenWal | src/index/corpus.cpp:729-766 | the corpus becomes the effect of the records on disk, nothing is logged meanwhile, and the file stays as it is, torn tail included; a damaged log changes nothing; a failing index build or open leaves the replayed contents with the old log or with none |
| Corpus.Corpus.ReplayOne | src/index/corpus.cpp:743-760 | an add is replayed as an upsert and a removal that no longer applies is ignored; the replayed document has the record's fields |
| Wal.ReplayOfPrefix | src/store/wal.cpp:187-224 | whatever byte a crash cuts the log at, replay gives exactly the completely logged records |
| Wal.ReplayInvertsFrames | src/store/wal.cpp:187-224 | replay undoes logging |
| Wal.ChangedPayloadByte | src/store/wal.cpp:206-213 | one changed payload byte is reported as damage in every record but the last, which is dropped as torn |
| Wal.ChangedLengthLooksTorn | src/store/wal.cpp:203-211 | the length field is not covered by the checksum: a changed one drops its record and everything after it without an error if and only if it points past the end, or onto the end with a payload that fails its checksum or does not decode |
| Wal.DecodeInvertsEncode | src/store/wal.cpp:35-64 | decoding undoes encoding for every record whose lengths fit their 32-bit fields |
| Wal.EncodeRecord | src/store/wal.cpp:35-45 | the writer produces the byte layout the round trip is about |
| Wal.DecodeRecord | src/store/wal.cpp:47-64 | the reader accepts exactly what the decoding function accepts; a repeated key keeps its first value |
| Wal.MakeFrame | src/store/wal.cpp:127-135 | magic, length, checksum and payload, as replay expects them |
| StoredBytes.RecordBytes | src/store/wal.cpp:35-45 | an addition and a removal byte by byte: operation code, strings with four-byte little-endian lengths, metadata count and pairs, document id |
| Wal.Log.Append | src/store/wal.cpp:137-159 | success exactly when the whole frame was written and flushed; the file holds the part written, all of it when only the flush failed, and the byte count grows only on success |
| Wal.Log.AppendBatch | src/store/wal.cpp:161-185 | a batch is on disk exactly as the same records appended one by one; an empty one succeeds without a write; a failure leaves the part written, and the byte count grows only on success |
| Wal.Log.Truncate | src/store/wal.cpp:226-237 | success exactly when the file was emptied and flushed; the file is empty also when only the flush failed, and the byte count is reset only on success |
| Wal.Replay | src/store/wal.cpp:187-224 | the loop over a moving position returns the records or the error that the recursive reading gives, on every byte string |
| Crc32.OneByteChangesCrc | src/store/container.cpp:28-41 | two inputs that differ in one byte have different checksums |
| Crc32.Checksum | src/store/container.cpp:38-40 | the table-driven loop computes bit-by-bit reflected polynomial division |
| Crc32.CheckValue | src/store/container.cpp:28-41 | the checksum of "123456789" is CBF43926, the check value of this CRC |
| Crc32.TableStep | src/store/container.cpp:39-39 | one table lookup and byte shift equals eight steps of the bitwise division |
| Crc32.BuildTable | src/store/container.cpp:29-37 | each entry is eight conditional shifts of its index |
| Crc32.DivideInjective | src/store/container.cpp:38-40 | different remainders stay different whatever the same bytes that follow |
| Container.ParseInvertsSerialize | src/store/container.cpp:44-132 | every storable container is parsed back unchanged |
| Container.OneByteChangeIsRejected | src/store/container.cpp:82-86 | a parsed container with any one byte changed, in header, table, payload or trailer, is rejected |
| Container.Serialize | src/store/container.cpp:44-76 | the writer with its running offset produces exactly the layout the round trip is about |
| Container.Parse | src/store/container.cpp:79-132 | on every byte string the reader gives the result of the parsing function, errors in the same order; a repeated tag overwrites |
| Container.SectionsReadBack | src/store/container.cpp:55-70 | payloads written one after the other are found again at the offsets the table gives |
| StoredBytes.ContainerBytes | src/store/container.cpp:44-70 | a container with one section byte by byte: magic, version, flags, section count, reserved bytes, the section's tag, offset and length, and the payload |
| Bytes.LeOfFromLe | include/rag/store/format.hpp:69-73 | writing back the number read from k bytes gives the same bytes |
| Bytes.ReadStrOf | include/rag/store/format.hpp:94-98 | a written string is read back whatever follows it |
| Kmeans.IterationKeeps | src/index/pq.cpp:124-165 | one Lloyd iteration, empty clusters respawned on the worst-served point, never raises the total squared distance of the points to their assigned centroids |
| Kmeans.TrainingKeeps | src/index/pq.cpp:121-165 | neither does a whole training, for any number of iterations |
| Kmeans.MeanMinimises | src/index/pq.cpp:146-148 | the mean of a cluster's members serves them at least as well as any other point |
| Kmeans.RespawnsAreFree | src/index/pq.cpp:149-162 | moving worst-served points onto respawned centroids does not raise the distortion |
| Kmeans.NearestIsBest | src/index/pq.cpp:126-135 | reassigning every point to its nearest centroid does not raise it either |
| Kmeans.LloydIteration | src/index/pq.cpp:124-165 | the in-place pass computes exactly that iteration and reports whether it moved a point or respawned a cluster; when it reports neither, every cluster is in use |
| Kmeans.UpdateCentroids | src/index/pq.cpp:145-163 | clusters in turn move to their mean or onto the point furthest from its centroid at that moment |
| Kmeans.AssignAll | src/index/pq.cpp:125-135 | every point gets the first nearest centroid, and the flag says whether any assignment changed |
| Kmeans.Accumulate | src/index/pq.cpp:137-144 | coordinate sums and sizes of every cluster |
| Kmeans.Lloyd | src/index/pq.cpp:121-165 | the training loop with its early exit computes the defined training and does not raise the distortion |
| Pq.NearestCodeIsOptimal | src/index/pq.cpp:176-188 | the code chosen subspace by subspace decodes at least as close to the vector as every other code with a byte for each subspace, also a longer one |
| Pq.EncodeInto | src/index/pq.cpp:176-188 | each byte written names the first nearest centroid of its subspace, and bytes beyond the code are untouched |
| Pq.ScoreIsDot | src/index/pq.cpp:225-231 | the table-lookup score of any valid code, shorter and longer ones included, equals the dot product of the query with the decoded vector |
| Pq.DistanceByDots | src/index/pq.cpp:16-25 | the squared distance the codes are chosen by and the dot product they are scored by belong together: the distance of a and b is a.a - 2 a.b + b.b |
| Pq.AdcTable | src/index/pq.cpp:214-223 | every entry is the query's part in a subspace times a centroid |
| Pq.AdcScore | src/index/pq.cpp:225-231 | the loop adds one table entry per code byte, of the first m bytes when there are more |
| Pq.Decode | src/index/pq.cpp:207-212 | the centroids named by the first m bytes one after the other, zeros where the code has no byte |
| Metrics.NoRankingBeatsIdeal | src/eval/beir.cpp:71-87 | for every grading, cut-off and positive non-increasing discount, no duplicate-free ranking gains more than the ideal one, and none less than 0 |
| Metrics.IdealRankingIsIdeal | src/eval/beir.cpp:71-87 | a ranking with the ideal grades down to the cut-off, and nothing relevant after them, gains exactly the ideal, also when more documents are relevant than the cut-off lets through |
| Metrics.OnlyIdealOrderIsIdeal | src/eval/beir.cpp:71-87 | with a strictly decreasing discount, a ranking without duplicates above the cut-off gains the ideal only in that order |
| Metrics.IdealListsAgree | src/eval/beir.cpp:79-82 | the ideal gain does not depend on how the sort orders equal grades |
| Metrics.NeverExceedsIffDistinct | src/eval/beir.cpp:74-78 | no grading lets the cut-off ranking gain more than its ideal if and only if the ranking lists no document twice above the cut-off |
| Metrics.NdcgAtK | src/eval/beir.cpp:71-87 | the ratio of the ranking's gain to the ideal gain, at least 0, at most 1 without duplicates above the cut-off, and with a strictly decreasing discount 1 exactly in ideal order; the ideal gain is positive exactly when k is and some document is relevant; a single relevant document at position i gives the discount there over the first discount |
| Metrics.GainDoubles | src/eval/beir.cpp:77-77 | a grade more doubles the gain and adds 1, and grades of 0 and below gain nothing |
| Metrics.SingleRelevant | src/eval/beir.cpp:71-87 | a single relevant document is worth its gain discounted at its position, and ideally at the first |
| Metrics.SortRelevant | src/eval/beir.cpp:79-82 | the relevant documents, each once, best grade first |
| Metrics.PrefixDominated | src/eval/beir.cpp:71-87 | the first t documents of any ranking gain at most what the ideal list's first t do |
| Metrics.WeightedDominance | src/eval/beir.cpp:77-85 | dominance of every prefix sum carries over to sums with non-increasing positive weights |
| Metrics.RecallAtK | src/eval/beir.cpp:89-99 | within [0, 1] without duplicates, and 1 exactly when every relevant document is among the first k; without duplicates it is the share of the relevant documents that are among the first k |
| Metrics.AveragePrecision | src/eval/beir.cpp:111-124 | the mean of the precisions at relevant positions; within [0, 1] without duplicates, and 1 exactly when the relevant documents fill the first places; a single relevant document at position i gives 1 / (i + 1) |
| Metrics.PerfectPrecision | src/eval/beir.cpp:115-122 | all precisions are 1 exactly when no irrelevant document precedes a relevant one |
| Lru.LargerHoldsMore | include/rag/cache/cache.hpp:34-58 | after any sequence of get, put and clear a larger cache holds every key and value of a smaller one, which lists its keys in the same recency order |
| Lru.CallIncludes | include/rag/cache/cache.hpp:34-58 | every single call keeps the smaller cache inside the larger one |
| Lru.PutKeeps | include/rag/cache/cache.hpp:42-56 | list and map keep the same keys, once each, never more than capacity; the new key is in front, and the only key that can go is the least recently touched one of a full cache |
| Lru.LruCache.Put | include/rag/cache/cache.hpp:42-56 | the splice and the eviction give exactly that state |
| Lru.LruCache.Get | include/rag/cache/cache.hpp:34-40 | a hit returns the value and moves the key to the front, a miss changes nothing; each call counts as one or the other |
| Lru.LruCache.Clear | include/rag/cache/cache.hpp:58-58 | both structures become empty |

## Left out

- Bm25Index.Index.Add: ids are below 0xFFFFFFFF, the value that marks an exhausted cursor; the index is not followed further
  once an id was used again for which its contract says that the tables are no longer exact.
- Bm25Index.Index.Search: covers finalized indexes, as include/rag/lexical/bm25.hpp:50-52 demands of callers; the corpus
  finalizes before it searches (src/index/corpus.cpp:479).
- Bm25Index.Index: k1 is at least 0 and b lies in [0, 1], as the defaults do. The code takes any value
  (include/rag/lexical/bm25.hpp:25-26); others can give weights of 0 or below, and then the pruning bounds and the touched
  lists no longer hold.
- Bm25Index.SearchRecomputed: one method stands for both paths that recompute weights, over a flat array and over a hash map.
- Bm25Index: per-term explanations, term coverage and the serialised form would only add easy members.
- LayerSearch.SearchLayer: among equally similar nodes it visits in the order of the sorted-list heaps; which of them a
  `std::push_heap` keeps is not captured.
- HnswIndex.Index.Add: an addition to a sealed index is `UnsealIndex` followed by this method; when unsealing does not keep
  the index invariant, the addition is not followed further.
- HnswIndex.Index.SearchNearest: reads the unsealed lists, which `Csr.LookupIsNeighbours` shows to be the same; int8, sign and
  PQ codes are the arbitrary functions `walk`, `dot` and `exact`, and freeing the float vectors is not modelled.
- HnswIndex: compaction, filtered search, the serialised form, and recall, which the code does not guarantee.
- WaveSearch.WalksAreScheduleIndependent: a walk's step is one candidate expansion and a group's step one push or the prune;
  thread pools and memory ordering below that grain are not modelled.
- BulkBuild.BuildBatch: reserving capacity and splitting into shares have no effect on the graph, and the released lists stay
  in the model beside the packed form. With int8 storage the build walks and selects on the quantized rows
  (src/index/hnsw.cpp:382-407, 497-506), which is covered by the arbitrary `walk` and `dot`.
- Recovery.CrashRecovery: for runs from at most one live document per non-empty uri whose plain additions are of uris not live
  (`LogReplaysExactlyWhenAddsAreNew` says that no others replay exactly) and whose log writes succeed; what a second crash
  meets is in TornTail, what a crash within a checkpoint meets in CheckpointWindow. Chunks, indexes and the epoch counter are
  derived data and not part of the state.
- CheckpointWindow.CheckpointCrash: for runs as above, from a snapshot whose tombstones are of existing documents, as every
  saved one's are (src/index/corpus.cpp:500-509).
- Wal.Log.Append: the write loop is one write of which a given number of bytes is accepted and one flush that succeeds or not;
  sync modes and retries after EINTR are not modelled.
- Wal.DecodeInvertsEncode: for strings, metadata and ids that fit their 32-bit fields and metadata without repeated keys.
- Container.ParseInvertsSerialize: for contents whose numbers fit their fields; temp files, fsync and rename are not modelled.
- InflateRaw.InflateRaw: the size hint only reserves memory; the ZIP directory and text extraction around it are not modelled.
- Adjacency.Materialise: how links and similarities between documents are found is not modelled, nor are edge kinds,
  community summaries and densities.
- LabelPropagation.Propagate: convergence is stated for graphs whose linked nodes have positive total weight or only links of
  weight 0; which graphs with other negative weights come to rest is left open.
- PageRank.PersonalizedPageRank: for a restart probability within [0, 1], non-negative restart masses and non-negative link
  weights, without which the vector need not be a distribution.
- Mmr.Rerank: similarities and lists of candidates are given; token bags and embeddings are not modelled.
- Kmeans.Lloyd: starts from arbitrary centroids, so the k-means++ seeding is not modelled; each subspace is trained alone.
- Metrics.NdcgAtK: grades are below 32, because the code shifts a 32-bit one by the grade.
- Lru.LruCache.Put: keys are numbers instead of strings, and an iterator into the list is the key it points at.
- File descriptors, HTTP, plugins, the C interface, the command line, model back ends and SIMD code are plumbing or foreign calls.
- Stemming, stopwords, chunking and markup clean-up are heuristics without a crisp specification.
- Rounding of floating-point arithmetic.
