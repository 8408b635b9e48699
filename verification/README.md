# Proofs about the Sky Go runtime

A Dafny model of the parts of `runtime-go/rt` whose correctness is a law rather than a matter of plumbing, with the
proof of each law. One module per component:

- **Regex**, **Pretokenizer**: the Qwen2 pre-tokenizer. `Regex` gives regular expressions their backtracking meaning
  (every end a pattern can reach from a place, most preferred first; the first one is the match), and `Pretokenizer`
  proves that the hand-written scanner cuts the chunks that the published seven-alternative pattern cuts.
- **Bpe**: the ranked merge loop, the byte alphabet, the rank table and the chunk cache.
- **Encode**: a whole text, through added tokens, NFC, the pre-tokenizer and BPE.
- **TokRows**, **LittleEndian**: the `.tok` file of a tokenized split, written and read.
- **Schedule**, **Arithmetic**: the training schedule from a seeded splitmix64.
- **Trie**, **ArrayTrie**: `Sky.Core.Array`, a 32-way trie with a separate tail. `Trie` works on values and proves every
  operation equal to the one on plain sequences; `ArrayTrie` does the same in memory, where nodes and tails are arrays
  that versions share, and proves that no operation changes an older version.
- **Dedupe**: the seen-key set, with its run files, binary search and k-way merge.
- **Sha256**, **Sha256Constants**, **Sha256Example**: the streaming SHA-256 of the device worker against FIPS 180-4, its
  constants against the roots of primes that define them, and the published example.
- **Gguf**: the GGUF writer and the bounded GGUF reader.
- **Tier**: the table of resident LoRA adapters shared by loads, requests, alias moves and drains.
- **AnalyticsWriter**, **Placeholders**: the buffered analytics writer and its multi-row INSERT.
- **Permits**: who holds a call's permit, through the queue, posts and streams.
- **VisitorTable**, **RateLimit**: the LRU visitor table and the sliding-window limiter.
- **LineReaders**: the reader that follows a growing file, and the paged dataset reader.

`Basics` holds what several modules share. `dafny verify dfyconfig.toml` checks everything.

How the code is modelled:

- A goroutine's mutex section, channel operation or atomic access is one step. Where a component is concurrent there is
  a state, a step relation over it and lemmas about every run, and a class whose methods are those sections, each proved
  to take exactly its step of the relation.
- A loop of the source is a loop. It is proved equal to a function, and the laws are lemmas about that function.
- Errors are values (`Result`, `Outcome`, `Parse`). Time is an integer that the caller passes and that does not go back.
- The Unicode tables, NFC, UTF-8 encoding and `strings.TrimSpace` are parameters. The one fact the scanner
  needs of the tables is that `\r` and `\n` are white space (`Pretokenizer.BreaksAreSpace`); where the two foldings are
  compared, also that the space is no letter or number and the apostrophe neither of these nor white space.
- `requires` clauses that name a ghost argument (`Trie.Get` and the like take the contents `s`) only name the contents;
  every array the package can build has them (`Trie.FromSlice`, `Trie.PushHolds`, `Trie.SetHolds`).

Six promises turned out not to hold as they are stated or read, and each has its exact place here:

- The pattern folds case with `(?i:...)`, the scanner with `ToLower`. They differ on a text exactly when it holds a
  contraction that only folding makes, with a letter behind it and neither a space nor punctuation in front of it
  (`Pretokenizer.CutFolding`; `Pretokenizer.LongSDiffers` is such a text).
- Sweeping away every occurrence of the best pair is not BPE for every rank table (`Bpe.OrderMatters`); it is when every
  ranked pair made from a merge's output ranks after that merge (`Bpe.SweepAllIsMergeAll`).
- A `.tok` file reads back exactly when its numbers fit, there is one prompt for each row and there are fewer than 2^31
  rows (`TokRows.RoundTrip`): the reader doubles the row count in 32 bits.
- An adapter may be evicted between its load and the alias that pins it (`Tier.PinCanDangle`); readiness survives a step
  exactly when the step is no such move (`Tier.ReadyStays`).
- After a sweep has ended, written plus dropped is what was emitted exactly when every enqueue underway has ended and no
  send since found room (`AnalyticsWriter.CleanShutdown`); with none underway when the sweep ends it stays so for good
  (`AnalyticsWriter.CleanForGood`), and `AnalyticsWriter.LateRow` is a run that loses a row.
- The reader of a growing file advances exactly when a line break lies within its limit (`LineReaders.Advances`), and
  never passes a longer line (`LineReaders.Stuck`); after any run it gets to the last complete line exactly when none
  from there on is longer (`LineReaders.DeliversAll`).

## Model

| member | source | states |
|---|---|---|
| Pretokenizer.Pretokenize | runtime-go/rt/ai_tokenizer.go:277-371 | for every rune sequence, the chunks are the successive matches of the seven-alternative pattern under backtracking semantics, up to the end of the text |
| Pretokenizer.NextChunk | runtime-go/rt/ai_tokenizer.go:292-369 | one round of the scan advances, and to where the pattern's preferred match from that place ends |
| Pretokenizer.NextSpace | runtime-go/rt/ai_tokenizer.go:340-366 | the white-space half of the round ends where alternatives 5, 6 and 7, with the look-ahead of 6, end |
| Pretokenizer.ContractionMatch | runtime-go/rt/ai_tokenizer.go:294-306 | the scanner's two-character look decides exactly what the seven folded contractions match, or that none does |
| Pretokenizer.WordMatch | runtime-go/rt/ai_tokenizer.go:307-319 | the optional prefix and greedy letters of alternative 2 match from the scanner's word start to the end of the letters, and fail when there is no letter there |
| Pretokenizer.PunctuationMatch | runtime-go/rt/ai_tokenizer.go:324-339 | the optional space, greedy punctuation and greedy line breaks of alternative 4, or its failure |
| Pretokenizer.LineBreaksMatch | runtime-go/rt/ai_tokenizer.go:346-355 | the pattern's `\s*[\r\n]+` backs off from the white-space run to just after its last line break |
| Pretokenizer.TrailingSpaceMatch | runtime-go/rt/ai_tokenizer.go:356-361 | `\s+(?!\S)` takes the whole run at the end of the text, all but the last space before other text, and fails on a single space there |
| Pretokenizer.CutCovers | runtime-go/rt/ai_tokenizer.go:367-370 | chunks are non-empty and concatenate to the text |
| Pretokenizer.CutExists | runtime-go/rt/ai_tokenizer.go:282-282 | every text can be cut |
| Pretokenizer.CutUnique | runtime-go/rt/ai_tokenizer.go:282-282 | and in one way only: the pattern determines the chunks |
| Pretokenizer.FoldingAgrees | runtime-go/rt/ai_tokenizer.go:294-306 | against a pattern whose case folding takes in more letters than `ToLower`, the next chunk is the same if and only if no folding-only contraction with a letter behind it stands there |
| Pretokenizer.QuoteInside | runtime-go/rt/ai_tokenizer.go:294-366 | inside a chunk, whatever alternative cut it, an apostrophe has a space or punctuation on its left |
| Pretokenizer.QuoteBehind | runtime-go/rt/ai_tokenizer.go:294-366 | right behind a chunk it has neither, so an apostrophe starts a chunk exactly there |
| Pretokenizer.StartsAreFree | runtime-go/rt/ai_tokenizer.go:277-371 | of a cut, the chunks that start at such contractions are those at the apostrophes that are free on their left |
| Pretokenizer.CutFolding | runtime-go/rt/ai_tokenizer.go:277-371 | the scanner's whole cut is that pattern's cut if and only if the text has no apostrophe, at its start or behind something that is neither a space nor punctuation, that starts a folding-only contraction with a letter behind it: a condition on the text alone |
| Pretokenizer.LongSDiffers | runtime-go/rt/ai_tokenizer.go:294-306 | a text on which the two differ: a quote, the long s and a letter |
| Bpe.ByteRunes | runtime-go/rt/ai_tiny_gguf.go:42-64 | the table filled with a running counter gives each byte its rune |
| Bpe.ByteRuneInjective | runtime-go/rt/ai_tiny_gguf.go:42-64 | distinct bytes have distinct runes, and no byte's rune is a space |
| Bpe.ByteRuneIs | runtime-go/rt/ai_tiny_gguf.go:42-64 | a byte that prints is its own rune, and the others take the runes from 256 on in their order |
| Bpe.KeyUnambiguous | runtime-go/rt/ai_tokenizer.go:244-246 | the key "left right" determines both sides when neither left side holds a space |
| Bpe.KeyIs | runtime-go/rt/ai_tokenizer.go:117-131 | the key of two symbols is the first, a space and the second |
| Bpe.LoadRanks | runtime-go/rt/ai_tokenizer.go:117-131 | a merge's rank is the place of its first line, every line has one, and no two keys share one |
| Bpe.Tokenizer.FindBest | runtime-go/rt/ai_tokenizer.go:242-248 | the scan finds the lowest-ranked adjacent pair, the leftmost among equals, or that no pair is ranked |
| Bpe.Best | runtime-go/rt/ai_tokenizer.go:242-248 | the best pair is ranked, ranks strictly below every earlier pair and not above any later one; there is none only when no pair is ranked |
| Bpe.Tokenizer.SweepPair | runtime-go/rt/ai_tokenizer.go:252-262 | the loop replaces every occurrence, left to right and without overlap |
| Bpe.Tokenizer.MergeLoop | runtime-go/rt/ai_tokenizer.go:240-263 | the loop terminates with the symbols the repeated sweep gives |
| Bpe.SweepIsMerges | runtime-go/rt/ai_tokenizer.go:252-262 | finishing a sweep does not change what merging one pair at a time ends with |
| Bpe.SweepAllIsMergeAll | runtime-go/rt/ai_tokenizer.go:230-263 | sweeping gives the same symbols as merging one lowest-ranked leftmost pair at a time, when every ranked pair containing a merge's output ranks after that merge |
| Bpe.SweepAllDone | runtime-go/rt/ai_tokenizer.go:230-263 | the loop ends with no ranked adjacent pair, and its symbols concatenate to the chunk |
| Bpe.OrderMatters | runtime-go/rt/ai_tokenizer.go:249-263 | without that order the two differ: a rank table and four symbols |
| Bpe.EncodingIsBpe | runtime-go/rt/ai_tokenizer.go:230-275 | with merges in order, the symbols of a chunk are those of one-at-a-time BPE over its byte runes, and id i is the token of symbol i, or the failure names the first symbol that has none |
| Bpe.Tokenizer.Bpe | runtime-go/rt/ai_tokenizer.go:232-275 | whatever the cache holds, id i is the token of symbol i of the merged chunk, or the failure names the first symbol without one; the cache gains only correct answers, below its limit of 65536 |
| Bpe.Tokenizer.LookUp | runtime-go/rt/ai_tokenizer.go:264-270 | as many ids as symbols, id i the token of symbol i; or a symbol without a token, and every symbol before it has one |
| Encode.Encoder.Encode | runtime-go/rt/ai_tokenizer.go:177-210 | the text splits into added tokens, the longest at their place, and the stretches between, and the ids of these stand in the result one after another: an added token's own, and in a stretch those of every symbol of every chunk in order; or the result is the first symbol without a token |
| Encode.Encoder.EncodeText | runtime-go/rt/ai_tokenizer.go:212-228 | the ids of the chunks of the normalised text stand in the result one after another, id by id the tokens of their symbols, or the result is the first symbol without one |
| Encode.FirstIsLongest | runtime-go/rt/ai_tokenizer.go:137-147 | with added tokens sorted longest first, the first that starts at a place is the longest that does |
| Encode.PiecesCover | runtime-go/rt/ai_tokenizer.go:179-210 | added tokens and the text between them spell the text |
| Encode.PiecesExist | runtime-go/rt/ai_tokenizer.go:179-210 | every text splits into them |
| Encode.PiecesUnique | runtime-go/rt/ai_tokenizer.go:179-210 | and in one way only |
| Encode.EncodingUnique | runtime-go/rt/ai_tokenizer.go:177-210 | so two encodings of a text are equal, whatever either cache held |
| Encode.EncodingGivesIds | runtime-go/rt/ai_tokenizer.go:177-275 | every id of an encoding, by pieces, chunks and symbols, is the token of its symbol or the id of its added token |
| Encode.TextIsBpe | runtime-go/rt/ai_tokenizer.go:177-275 | with merges in order, a result is the text's encoding if and only if it is the one that merges every chunk one pair at a time, and its ids are, in order, the tokens of the symbols that merging leaves |
| TokRows.Encode | runtime-go/rt/ai_tokenizer.go:522-548 | the bytes written, 32-bit truncation of every number included; spare prompts are not written and a missing one panics |
| TokRows.FieldsAt | runtime-go/rt/ai_tokenizer.go:522-536 | the file starts with its magic, the row count, the vocabulary's size and the token count, in four, four and eight bytes |
| TokRows.LengthsAt | runtime-go/rt/ai_tokenizer.go:537-540 | the table gives each row its length and then its prompt |
| TokRows.TokensAt | runtime-go/rt/ai_tokenizer.go:541-545 | each row's ids stand behind those of the rows before it |
| LittleEndian.LEAt | runtime-go/rt/ai_tokenizer.go:522-548 | byte i of a written number is its digit of 256^i |
| LittleEndian.WordsAt | runtime-go/rt/ai_tokenizer.go:522-548 | number i of a table stands at i times the width |
| TokRows.CutRows | runtime-go/rt/ai_tokenizer.go:572-583 | the rows the decoder's loop cuts off the two tables, or the panic when either runs short |
| TokRows.RoundTrip | runtime-go/rt/ai_tokenizer.go:527-584 | a split is written and reads back as it was if and only if it has a prompt for each row and no more, fewer than 2^31 rows, and every number fits 32 bits |
| TokRows.DecodedFits | runtime-go/rt/ai_tokenizer.go:550-584 | whatever the file, rows that are read are rows that can be written |
| Schedule.HighWordBelow | runtime-go/rt/ai_tokenizer.go:606-607 | the high word of a 64 by 64 bit product with n is below n, so every draw is an index |
| Schedule.ShuffleInPlace | runtime-go/rt/ai_tokenizer.go:598-611 | the array ends as the epoch's order: from 0, 1, 2 and so on, for every place i from n - 1 down to 1, places i and floor(u (i + 1) / 2^64) exchange, u the next output |
| Schedule.PublishedOutputs | runtime-go/rt/ai_tokenizer.go:586-596 | from the state 0 the generator gives the published outputs of splitmix64 |
| Schedule.EpochSeedIs | runtime-go/rt/ai_tokenizer.go:605-605 | seed 0 starts epoch 0 from the state 0; each epoch starts one state further on and each seed 1000003, modulo 2^64 |
| Schedule.EpochsDiffer | runtime-go/rt/ai_tokenizer.go:605-605 | no two epochs below 2^64 of a seed start from one state |
| Schedule.ShufflePermutes | runtime-go/rt/ai_tokenizer.go:606-609 | the shuffle keeps the multiset |
| Schedule.EpochPermutes | runtime-go/rt/ai_tokenizer.go:598-611 | for every seed and epoch the order is a permutation of 0..n-1 |
| Schedule.OrderSchedule | runtime-go/rt/ai_tokenizer.go:623-639 | rowsPerStep * steps entries, entry q the one at q mod rows of epoch q / rows, although the loop makes each order once; none without rows |
| Schedule.WindowPermutes | runtime-go/rt/ai_tokenizer.go:623-639 | every aligned window of `rows` entries is its epoch's permutation |
| Schedule.ShorterIsPrefix | runtime-go/rt/ai_tokenizer.go:623-639 | a shorter schedule is a prefix of a longer one |
| Schedule.StepsCoverEpochs | runtime-go/rt/ai_tokenizer.go:613-621 | without maxSteps the steps are as few as cover max(1, epochs) * rows rows |
| Schedule.TotalStepsIs | runtime-go/rt/ai_tokenizer.go:613-621 | a limit is kept; fewer than one row in a step and fewer than one epoch count as one, and there is always a step |
| Schedule.EveryRowTrained | runtime-go/rt/ai_tokenizer.go:613-639 | such a run schedules every row at least once per epoch |
| Trie.PushHolds | runtime-go/rt/array_trie.go:132-155 | push takes the canonical array of s to the canonical array of s + [x], contents and shape; `ArrayTrie.Push` is the same in memory |
| Trie.PushTailBuild | runtime-go/rt/array_trie.go:110-130 | pushing a block of 32 builds the node of the longer contents, every block at its radix position and every other slot empty |
| Trie.NewPathBuild | runtime-go/rt/array_trie.go:101-108 | a new path is the node that holds its one block |
| Trie.GrowRoot | runtime-go/rt/array_trie.go:143-149 | a full root and a new path under a new root are the node of the longer contents, one level up |
| Trie.SetHolds | runtime-go/rt/array_trie.go:168-179 | set replaces in range, is the identity out of range (negative included), and never meets an empty slot; `ArrayTrie.Set` is the same in memory |
| Trie.AssocBuild | runtime-go/rt/array_trie.go:157-166 | the path copy builds the node of the updated contents |
| Trie.DescendBuild | runtime-go/rt/array_trie.go:83-92 | following the radix digits ends at the block of 32 that holds the index |
| Trie.HoldsUnique | runtime-go/rt/array_trie.go:75-155 | equal contents have equal tries: the shape depends on the contents alone |
| Trie.SameShape | runtime-go/rt/array_trie.go:75-155 | the shape is a function of length alone: arrays of equal length have equal shifts, tails of equal length and the same occupied slots all the way down, whatever they hold |
| Trie.HoldsInjective | runtime-go/rt/array_trie.go:94-99 | no array holds two different contents |
| Trie.FindLeaf | runtime-go/rt/array_trie.go:82-92 | the loop finds the index's block in at most shift / 5 hops, and 32^hops is below the length when there is more than one |
| Trie.Get | runtime-go/rt/array_trie.go:94-99 | the element in range, nothing out of range |
| Trie.Each | runtime-go/rt/array_trie.go:181-194 | the visit folds over the contents in order and stops where the callback says |
| Trie.WalkIs | runtime-go/rt/array_trie.go:181-194 | the callback gets each element in order with its index and with what the call before it gave, up to the first call that says stop |
| Trie.FromSlice | runtime-go/rt/array_trie.go:196-202 | builds the canonical array of the slice |
| Trie.ToSlice | runtime-go/rt/array_trie.go:204-208 | gives the contents back |
| Trie.Append | runtime-go/rt/array_trie.go:293-297 | the canonical array of the concatenation |
| Trie.Slice | runtime-go/rt/array_trie.go:299-323 | the canonical array of Elm's slice: negative indices from the end, clamped, empty when crossed |
| Trie.SliceLaws | runtime-go/rt/array_trie.go:299-323 | a range within the array is itself, an index from -n to -1 is the one n further on, indices outside are cut off at the ends, and a crossed range is empty |
| Trie.Equal | runtime-go/rt/array_trie.go:325-339 | true if and only if the lengths agree and the deep comparison holds at every place, although it stops at the first difference |
| Trie.EqualTries | runtime-go/rt/array_trie.go:325-339 | where the deep comparison is equality, equal arrays are exactly equal tries |
| ArrayTrie.NewPath | runtime-go/rt/array_trie.go:101-108 | one new node for each level above the block, which is itself shared |
| ArrayTrie.PushTail | runtime-go/rt/array_trie.go:110-130 | a path of new nodes, one for each level, that holds what the value-level operation gives; the copied node and everything else it leads to are left as they were |
| ArrayTrie.Assoc | runtime-go/rt/array_trie.go:157-166 | one new node for each level down to the leaf, and no old one written |
| ArrayTrie.Push | runtime-go/rt/array_trie.go:132-155 | the new version holds s + [x], every version that held something before still holds it (t, and versions that share its nodes or its tail, included), and at most shift / 5 + 3 objects are new |
| ArrayTrie.Set | runtime-go/rt/array_trie.go:168-179 | the new version holds s with x at i, or t itself is the answer out of range; every older version still holds what it held, and at most shift / 5 + 1 objects are new |
| ArrayTrie.LeafFor | runtime-go/rt/array_trie.go:82-92 | following the nodes in memory ends at the block of 32 that holds the index |
| ArrayTrie.Get | runtime-go/rt/array_trie.go:94-99 | the element in range, nothing out of range |
| ArrayTrie.ToSlice | runtime-go/rt/array_trie.go:181-208 | the walk over the leaves in memory gives the contents |
| ArrayTrie.FromSlice | runtime-go/rt/array_trie.go:196-202 | a new array of the contents, built of new objects only |
| ArrayTrie.Append | runtime-go/rt/array_trie.go:293-297 | the concatenation, with both operands and every other older version unchanged |
| ArrayTrie.Slice | runtime-go/rt/array_trie.go:299-323 | Elm's slice, of new objects only, with every older version unchanged |
| Dedupe.DedupeSet.First | runtime-go/rt/ai_dedupe.go:127-166 | whatever was spilled or merged, the answer for each key is the row of its first occurrence in an earlier call or earlier in this one, 1 where that was recorded without a row, and 0 when this is the first; what is seen after is that of one map; between calls memory is below its limit and there are at most eight runs |
| Dedupe.DedupeSet.FirstOne | runtime-go/rt/ai_dedupe.go:136-164 | one key: the row it was recorded at, 1 if that is 0, or 0 and it is recorded |
| Dedupe.DedupeSet.Add | runtime-go/rt/ai_dedupe.go:113-125 | true exactly for a key not seen in an earlier call nor earlier in this one |
| Dedupe.RecordedIs | runtime-go/rt/ai_dedupe.go:127-166 | a digest is recorded if and only if it was seen or is among the keys, with its earlier row, or else the row of its first place |
| Dedupe.AnswersSplit | runtime-go/rt/ai_dedupe.go:127-166 | first(start, a ++ b) = first(start, a) ++ first(start + len a, b), and for start 0 the second call starts at 0 again |
| Dedupe.AnswersAre | runtime-go/rt/ai_dedupe.go:127-175 | the answers of one map, key by key and without the recursion |
| Dedupe.RecordedSplit | runtime-go/rt/ai_dedupe.go:127-166 | and both leave the same keys seen |
| Dedupe.NewIsUnseen | runtime-go/rt/ai_dedupe.go:113-131 | with start 0 the answer is 0 exactly for an unseen key |
| Dedupe.Search | runtime-go/rt/ai_dedupe.go:188-225 | the binary search of a sorted run finds a digest's row, or that it is absent |
| Dedupe.DedupeSet.InRuns | runtime-go/rt/ai_dedupe.go:177-186 | searching the runs in turn is looking up their union |
| Dedupe.WriteRun | runtime-go/rt/ai_dedupe.go:229-257 | the run written from memory is strictly sorted and holds exactly memory's rows |
| Dedupe.DedupeSet.Spill | runtime-go/rt/ai_dedupe.go:227-264 | memory is emptied, nothing seen is lost, one run more, or one in all after a merge |
| Dedupe.DedupeSet.Merge | runtime-go/rt/ai_dedupe.go:266-349 | one run is left and nothing seen is lost or changed |
| Dedupe.MergeRuns | runtime-go/rt/ai_dedupe.go:313-336 | the k-way merge of sorted disjoint runs terminates with the strictly sorted union of their rows |
| Dedupe.MergeStep | runtime-go/rt/ai_dedupe.go:313-336 | a round keeps the output equal to what was read and below what is left, so the duplicate-skip branch never drops a record |
| Dedupe.DedupeSet.Close | runtime-go/rt/ai_dedupe.go:351-359 | reports the number of distinct keys seen |
| Sha256.Sha256.Update | runtime-go/rt/ai_device_worker.go:80-90 | after any update the state is that of the whole message so far: its full blocks absorbed as section 6.2.2 of FIPS 180-4 says, the rest (0 to 63 bytes) in the buffer |
| Sha256.Sha256.Hex | runtime-go/rt/ai_device_worker.go:91-104 | the result is the hexadecimal of the message's digest, padding as section 5.1.1 of FIPS 180-4 says, and the buffer is empty after it |
| Sha256.HashChunks | runtime-go/rt/ai_device_worker.go:54-104 | however a message is split across updates, hex gives the digest of the whole |
| Sha256.Sha256.Block | runtime-go/rt/ai_device_worker.go:59-79 | the block function is the compression of section 6.2.2 |
| Sha256.Sha256.FillSchedule | runtime-go/rt/ai_device_worker.go:60-67 | the array holds the message schedule |
| Sha256.RotateByShifts | runtime-go/rt/ai_device_worker.go:64-72 | the pairs of shifts are the rotations of section 4.1.2 |
| Sha256.AbsorbAppend | runtime-go/rt/ai_device_worker.go:80-90 | absorbing is compositional over whole blocks |
| Sha256.MakePad | runtime-go/rt/ai_device_worker.go:92-98 | the pad is a 1 bit, the fewest zero bytes and the 64-bit length |
| Sha256.Halves | runtime-go/rt/ai_device_worker.go:95-98 | the two 32-bit halves, byte by byte, are the big-endian bit count |
| Sha256.HexDigitsAt | runtime-go/rt/ai_device_worker.go:100-102 | digit k of word j, counted from the left, is that of 16^(7 - k) |
| Sha256Constants.InitialHash | runtime-go/rt/ai_device_worker.go:55-57 | the initial hash value is, as section 5.3.3 defines it, the first 32 fractional bits of the square roots of the first 8 primes |
| Sha256Constants.RoundConstants | runtime-go/rt/ai_device_worker.go:45-53 | the round constants are, as section 4.2.2 defines them, those of the cube roots of the first 64 primes |
| Sha256Constants.ChBits | runtime-go/rt/ai_device_worker.go:71-71 | Ch takes the bits of y where x has ones and those of z elsewhere |
| Sha256Constants.MajBits | runtime-go/rt/ai_device_worker.go:74-74 | Maj takes the bit of x and y where they agree and that of z where they differ |
| Sha256Example.DigestOfAbc | runtime-go/rt/ai_device_worker.go:54-104 | the digest of abc is the published one |
| Gguf.RoundTrip | runtime-go/rt/ai_train_convert.go:195-314 | reading a written file gives the metadata and the tensor table back, in order, if it is within the reader's limits, and is refused otherwise |
| Gguf.HeaderAt | runtime-go/rt/ai_train_convert.go:278-296 | a written file starts with its magic, version 3, the tensor count and the entry count, and the entries and the tensor table follow |
| Gguf.InfoParts | runtime-go/rt/ai_train_convert.go:298-309 | a tensor's entry is its name, the number of dimensions, these, its type and its offset |
| Gguf.KVParts | runtime-go/rt/ai_train_convert.go:283-294 | an entry is its key with its length in front, its type's number and its value: 4 a 32-bit number, 6 a float's bits, 8 a string |
| Gguf.MergedIs | runtime-go/rt/ai_gguf.go:70-110 | of entries with one key the last wins, so distinct keys all read back, and nothing else is in the map |
| Gguf.TensorData | runtime-go/rt/ai_train_convert.go:297-314 | each tensor's data stands at data start plus its offset, offsets are 32-aligned, tensors do not overlap, and the file ends with the last one |
| Gguf.ValueAt | runtime-go/rt/ai_gguf.go:168-243 | the reader reads each kind of value the writer writes, strings within 1 MiB, and no other string |
| Gguf.SignExtendIs | runtime-go/rt/ai_gguf.go:174-197 | a signed number of n bytes is the one in the signed range with those bytes |
| Gguf.KVsAt | runtime-go/rt/ai_gguf.go:70-110 | the entries read back in order, or the file is refused when one exceeds the limits |
| Gguf.InfosAt | runtime-go/rt/ai_train_convert.go:195-249 | the tensor table reads back in order with its data offsets, or is refused when a name or a shape exceeds the limits |
| Gguf.StringAt | runtime-go/rt/ai_gguf.go:153-166 | a written string reads back up to 1 MiB and is refused beyond |
| Gguf.OffsetGrows | runtime-go/rt/ai_train_convert.go:298-307 | an earlier tensor ends before a later one starts |
| Gguf.WriteFile | runtime-go/rt/ai_train_convert.go:278-314 | the writer's loops produce the file layout |
| Gguf.LoadHeader | runtime-go/rt/ai_train_convert.go:195-249 | the reader's loops compute the bounded parse, every refusal included |
| Gguf.LoopKVs | runtime-go/rt/ai_gguf.go:88-108 | the entry loop, an entry of a dropped kind leaving no key |
| Gguf.WireAt | runtime-go/rt/ai_gguf.go:168-243 | whoever wrote it, any well-formed value (numbers of every width, strings, arrays of arrays) reads as what it is up to its last byte when it is within the limits, three arrays deep included, and is refused otherwise |
| Tier.NextKeeps | runtime-go/rt/ai_serve.go:437-469 | every step keeps: at most maxAdapters resident, each in-flight count equal to the requests holding the entry, an entry still loading is in the table |
| Tier.Reachable | runtime-go/rt/ai_serve.go:437-611 | so in every reachable state, at most maxAdapters are resident and every count is exact |
| Tier.KeptStays | runtime-go/rt/ai_serve.go:522-611 | no step removes an entry that has loaded while an alias pins it or a request is in flight on it |
| Tier.RequestKeepsAdapter | runtime-go/rt/ai_serve.go:757-775 | over a whole run, a request that holds a loaded adapter finds the same entry in the table |
| Tier.PinKeepsAdapter | runtime-go/rt/ai_serve.go:522-611 | over a whole run, an adapter that has loaded and that an alias, not always the same one, names before every step is the same entry in the table at the end |
| Tier.HeldKeepsAdapter | runtime-go/rt/ai_serve.go:522-611 | both at once: before every step an alias or a request holds it, and the one may take over from the other |
| Tier.FailedLoad | runtime-go/rt/ai_serve.go:457-468 | a failed load takes out the entry it put in and nothing else |
| Tier.ReadyStays | runtime-go/rt/ai_serve.go:613-634 | a ready tier stays ready over a step if and only if the step does not move one of its aliases to a version that is not resident and loaded |
| Tier.VictimIs | runtime-go/rt/ai_serve.go:522-545 | a victim is named by no alias, idle and loaded, and no other such entry was used earlier; there is none only when every entry is named, in use or loading |
| Tier.MoveRetires | runtime-go/rt/ai_serve.go:572-586 | after an alias moves, the new version's entry is not retired, the one the alias left is unless another alias names it, and all else is as it was |
| Tier.LastUsedIs | runtime-go/rt/ai_serve.go:757-768 | in every run, the time on an entry is that of its load or of the last request that began on it, whichever is later |
| Tier.PinCanDangle | runtime-go/rt/ai_serve.go:561-593 | a run in which an adapter is evicted between its load and the alias that then names it |
| Tier.DrainDone | runtime-go/rt/ai_serve.go:595-611 | after a drain nothing left behind by an alias is idle in the table, and what no alias left behind is untouched |
| Tier.AiTier.EnsureLoaded | runtime-go/rt/ai_serve.go:437-455 | waits for a load underway, refuses exactly when the table is full and nothing may be evicted, and otherwise takes the load step |
| Tier.AiTier.FindVictim | runtime-go/rt/ai_serve.go:522-545 | an unpinned, idle, loaded entry used least recently, or none exists |
| Tier.AiTier.FinishLoad | runtime-go/rt/ai_serve.go:457-468 | takes the step that ends a load |
| Tier.AiTier.MoveAlias | runtime-go/rt/ai_serve.go:572-586 | takes the alias step: the new version is not retired, the one left behind is unless another alias pins it |
| Tier.AiTier.DrainIdle | runtime-go/rt/ai_serve.go:597-607 | takes the drain step, and what it unloads is exactly what was retired, unpinned, idle and loaded |
| Tier.AiTier.BeginProxy | runtime-go/rt/ai_serve.go:757-768 | counts the request against the resident entry, or finds the model unloaded |
| Tier.AiTier.EndProxy | runtime-go/rt/ai_serve.go:769-774 | gives the count back to the entry the request holds, in the table or not |
| Tier.AiTier.AllReady | runtime-go/rt/ai_serve.go:613-634 | the engine being up, true if and only if every alias is resolved and its version is resident and loaded |
| AnalyticsWriter.NextKeeps | runtime-go/rt/analytics_writer.go:279-436 | every step of every caller and of the writer keeps conservation, acceptance order, statements of 1 to 256 rows, the written counter equal to the rows of successful statements and the dropped counter to those refused, lost, swept or counted early, and what the writer holds at each place of its loop |
| AnalyticsWriter.Conservation | runtime-go/rt/analytics_writer.go:279-583 | until a shutdown budget expires, emitted = written + dropped + queued + in the batch + between check and send + swept and not yet counted |
| AnalyticsWriter.CleanShutdown | runtime-go/rt/analytics_writer.go:524-583 | in any run without an expired budget, at any state since the last sweep ended, written + dropped is what was emitted if and only if no enqueue is underway and no send since the sweep found room |
| AnalyticsWriter.CleanForGood | runtime-go/rt/analytics_writer.go:524-583 | when a sweep ends with no enqueue underway, emitted = written + dropped at every later state, write failures and later emits included |
| AnalyticsWriter.Unaccounted | runtime-go/rt/analytics_writer.go:524-583 | what is not accounted for since a sweep ended is exactly the sends accepted since and the enqueues underway |
| AnalyticsWriter.ExpiredIsCeiling | runtime-go/rt/analytics_writer.go:549-563 | with expired budgets, dropped exceeds the loss by exactly what was still queued when they expired |
| AnalyticsWriter.LateRow | runtime-go/rt/analytics_writer.go:279-292 | a run whose sweep ends before an admitted enqueue sends, and the row it sends is in no counter |
| AnalyticsWriter.FlushDone | runtime-go/rt/analytics_writer.go:363-374 | when a flush is signalled, every row accepted so far has been through a statement, in order, and is in the written counter or in the dropped one: written + (dropped - refused - counted early) is the number accepted |
| AnalyticsWriter.FlushCovers | runtime-go/rt/analytics_writer.go:506-522 | over a run, rows accepted before a flush was asked for are, when it is signalled, the first of the rows sent through statements, all of which are in the written or the dropped counter |
| AnalyticsWriter.Writer.Enqueue | runtime-go/rt/analytics_writer.go:272-310 | accepted exactly when not stopped and the queue has room, and every refusal is counted |
| AnalyticsWriter.Writer.Coalesce | runtime-go/rt/analytics_writer.go:322-335 | takes from the queue, in order, up to a full batch |
| AnalyticsWriter.Writer.WriteBatch | runtime-go/rt/analytics_writer.go:389-436 | one statement for the batch; success counts its rows written, failure counts them dropped |
| AnalyticsWriter.Writer.ServeFlush | runtime-go/rt/analytics_writer.go:363-374 | N pending rows go in exactly ceil(N / 256) statements when none arrive meanwhile, whatever fails, and nothing is pending after |
| AnalyticsWriter.Writer.FinalDrain | runtime-go/rt/analytics_writer.go:345-361 | the drain on stop sends everything queued, in ceil(N / 256) statements, and returns |
| AnalyticsWriter.Writer.Sweep | runtime-go/rt/analytics_writer.go:568-583 | empties the queue and counts what it found as dropped |
| Placeholders.QFor | runtime-go/rt/analytics_store.go:93-109 | for pgx the n-th question mark becomes $n and nothing else changes; other drivers keep the text |
| Placeholders.DecimalAt | runtime-go/rt/analytics_store.go:93-109 | digit k of a number, counted from the right, is that of 10^k |
| Placeholders.DecimalIs | runtime-go/rt/analytics_store.go:93-109 | and it has as many digits as it needs |
| Placeholders.RenumberedConcat | runtime-go/rt/analytics_store.go:93-109 | numbering goes on across a concatenation |
| Placeholders.RenumberedInsert | runtime-go/rt/analytics_writer.go:596-610 | a k-row INSERT has 6k placeholders and becomes the one with $1 to $6k in order |
| Placeholders.InsertStatement | runtime-go/rt/analytics_writer.go:585-610 | the statement and 6k arguments, those of row i its six values from 6i on in the order of the column list |
| Permits.NextKeeps | runtime-go/rt/ai_queue.go:43-75 | every step of every call keeps the permit count equal to its holders and within the limit, the waiting count equal to the waiters and within capacity, and the ledger of permits taken and given back |
| Permits.PermitConservation | runtime-go/rt/ai_stream.go:365-450 | in every reachable state permits in use are the posts in progress plus the streams opening, open or closing, which are disjoint and are exactly the calls that took a permit and have not given it back; at most maxInFlight, and waiters at most capacity |
| Permits.CanRelease | runtime-go/rt/ai_queue.go:44-44 | a release never blocks, and gives back a permit that was taken and not given back before |
| Permits.ReleasedOnce | runtime-go/rt/ai_stream.go:90-124 | no call comes to a release twice, on any path: success, failure, double close or timer |
| Permits.ReturnedAtEnd | runtime-go/rt/ai_stream.go:365-450 | in every reachable state, a call that took a permit has given it back if and only if it has ended |
| Permits.AllReturned | runtime-go/rt/ai_endpoint.go:330-386 | when every call has ended, every permit taken was given back and nobody waits |
| Permits.Slot.TryFast | runtime-go/rt/ai_queue.go:44-49 | takes a permit exactly when one is free |
| Permits.Slot.Enter | runtime-go/rt/ai_queue.go:50-60 | joins the waiting room exactly when it has room |
| Permits.Slot.Await | runtime-go/rt/ai_queue.go:66-74 | a permit or the timeout, and the call is still counted as waiting |
| Permits.Slot.Leave | runtime-go/rt/ai_queue.go:61-65 | the count goes down once for each call that went up, whichever way the wait ended |
| Permits.Slot.Release | runtime-go/rt/ai_queue.go:44-44 | gives one permit back |
| Permits.Slot.Drop | runtime-go/rt/ai_stream.go:90-100 | of any number of droppers, the one that finds the stream in the table closes it |
| VisitorTable.Table.Get | runtime-go/rt/analytics_kernel.go:458-499 | a key's earlier state exactly when the key was last seen within the idle window and fewer than max other keys were seen since, else a new one; map and list hold the same distinct keys, at most max |
| VisitorTable.LookUp | runtime-go/rt/analytics_kernel.go:473-499 | a key answers from the table exactly when the whole history says that it survives |
| VisitorTable.AnswerIs | runtime-go/rt/analytics_kernel.go:458-499 | a call answers what the last call for its key did if that is within the idle window and fewer than max distinct keys were called after it, and a new state otherwise |
| VisitorTable.LastCallIs | runtime-go/rt/analytics_kernel.go:458-499 | when a key was last seen, which keys were seen since and the state it has are all those of its last call |
| VisitorTable.PlaceIsCount | runtime-go/rt/analytics_kernel.go:473-499 | a key's place in newest-seen-first order is the number of other keys seen since |
| VisitorTable.RecentOrdered | runtime-go/rt/analytics_kernel.go:473-499 | along that order keys were seen longer and longer ago, so dropping from the back drops the oldest |
| VisitorTable.ToFront | runtime-go/rt/analytics_kernel.go:473-499 | moving a key to the front with its answer keeps the table in step with the history |
| VisitorTable.DropBack | runtime-go/rt/analytics_kernel.go:473-499 | dropping the last key, by number or by age, loses nothing that could still answer |
| RateLimit.AiDeviceRate.Allow | runtime-go/rt/ai_device_serve.go:570-595 | a call is allowed if and only if fewer than 30 calls for its key were allowed in the minute before it, although the filter and the append write into the key's own buffer |
| RateLimit.WithinIs | runtime-go/rt/ai_device_serve.go:570-595 | the rule counts the allowed calls of the log for the key with a time later than a minute before now, no others |
| RateLimit.AiDeviceRate.Record | runtime-go/rt/ai_device_serve.go:582-594 | in memory, the key's recent times are kept in order and the call added when there are fewer than 30; no other key's times change |
| RateLimit.AtMostLimit | runtime-go/rt/ai_device_serve.go:570-595 | so in any run, every half-open minute has at most 30 allowed calls for a key |
| RateLimit.FilterInPlace | runtime-go/rt/ai_device_serve.go:573-595 | filtering into the front of the same array keeps exactly the recent times, in order, and leaves the rest of the array alone |
| RateLimit.DropStale | runtime-go/rt/ai_device_serve.go:573-595 | dropping stale keys changes nothing the rule can see |
| LineReaders.ReadLines | runtime-go/rt/ai_train.go:737-767 | the non-empty trimmed lines up to the last line break within the limit, and the offset after it |
| LineReaders.ExactlyOnce | runtime-go/rt/ai_train.go:737-767 | however appends, torn lines included, and reads of any limits interleave, the lines delivered so far are those of the file up to the offset, each once and in order |
| LineReaders.CatchUp | runtime-go/rt/ai_train.go:737-767 | when no line from the offset on exceeds the limit, reading until a read does not advance delivers every complete line |
| LineReaders.DeliversAll | runtime-go/rt/ai_train.go:737-767 | after any run of appends and reads, enough further reads leave no complete line unread if and only if none from the run's offset on exceeds their limit; then all that was delivered is the file's complete lines, each once and in order |
| LineReaders.Advances | runtime-go/rt/ai_train.go:737-767 | a read advances if and only if a line break lies within its limit |
| LineReaders.Stuck | runtime-go/rt/ai_train.go:737-767 | a longer line stops the reader whatever is appended |
| LineReaders.LinesConcat | runtime-go/rt/ai_train.go:737-767 | the lines of two pieces, the first ending with a break, are the lines of the whole |
| LineReaders.LinesAre | runtime-go/rt/ai_train.go:737-767 | the lines, each with its break, are all of the data but what follows the last break |
| LineReaders.LinesUnbroken | runtime-go/rt/ai_train.go:737-767 | and no line holds a break |
| LineReaders.LineEndIs | runtime-go/rt/ai_dataset.go:92-107 | a line ends at its first break |
| LineReaders.TrimRightIs | runtime-go/rt/ai_dataset.go:52-90 | the line endings behind a line are taken off, all of them and nothing else |
| LineReaders.ReadLine | runtime-go/rt/ai_dataset.go:92-107 | the line, or too long exactly when it exceeds the limit, for every buffer size |
| LineReaders.ReadLinesAt | runtime-go/rt/ai_dataset.go:52-90 | a page is the next lines from the offset, whatever the buffer; a negative offset is refused, one past the end is the end of the file, a line too long fails the page |
| LineReaders.ReadAllPages | runtime-go/rt/ai_dataset.go:52-90 | pages of any sizes, one after another, are the file's lines, every one once and in order, and fail if and only if some line is too long |

## Left out

- HTTP handlers, process control, downloads, settings, logging, metrics and the clock: input and output, or parameters.
- The inside of libraries: `encoding/json`, `gob`, the SQL drivers, `bufio` beyond ReadSlice, the Unicode tables, NFC.
- Texts that are not valid UTF-8: text is a sequence of runes, so the byte-wise step over a malformed byte is not seen.
- The loading of `tokenizer.json` beyond the rank table, the sort of added tokens (its result is what `Encode` takes), chat rendering and the row cut of `aiEncodeRow`.
- `order.bin`, the other binary file: it has no reader in Go.
- Allocations that are too large: `.tok` counts beyond the file's size read as a refusal, where Go may panic first.
- SweepAllIsMergeAll: the order of merges is sufficient and not necessary, because a ranked pair that breaks it may never come up next to a second occurrence; `OrderMatters` shows that it cannot simply be dropped.
- Trie.Equal: the deep comparison of boxed values is a function parameter, and on values; it only reads.
- Map, filter, folds and the indexed list of the array package: they are `Trie.Each` with one callback or another.
- Input/output errors, the sweep of abandoned directories and crashes in the seen-key set; a digest is a number, a run file a sequence of records.
- Sha256.Sha256.Update: messages up to 2^53 bytes, where a JavaScript number is still exact.
- Sha256.Sha256.Hex: likewise, less the padding.
- Gguf: a metadata entry's type tag follows from its value, so an entry whose tag and value disagree is not represented; F32 values are 32-bit patterns; the reader's file handle and `aiConvertPeft` are not modelled.
- Gguf.RoundTrip: for arguments within Go's own integer widths.
- Whether the engine has an adapter loaded: an eviction unloads it later, in a goroutine of its own, so residency in `Tier` is the table's and not the engine's.
- Digests, counters, load errors handed to waiters and alias errors in the tier.
- The queue's timer and the stream's deadline in `Permits` fire at any time; how long they wait is not modelled. Engine slots (`ensureEngine`) are not either.
- AnalyticsWriter.Conservation: once a shutdown budget expires, rows still queued are counted as dropped and may yet be written, so dropped is then an upper bound on the loss (`AnalyticsWriter.ExpiredIsCeiling`).
- The flush caller's own timeout, one-shot warnings and published metrics of the analytics writer; `synchronous_commit`.
- How much `append` grows a buffer: in the limiter it is some larger one.
- VisitorTable.Table.Get: states are numbered by the call that made them, and keys are numbers.
- The GGUF memory plan (`aiPlanFit`), the engine supervisor, the lock-file breaker, session revocation and the TTL cache.
