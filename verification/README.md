# c2slm in Dafny: a model and its proofs

c2slm is a pure-Go inference engine for small language models. This project models the parts of it
whose correctness is not visible from reading one function, and proves the properties they are
built around.

**Integer kernels.** Activations are quantised to `Q8_K` blocks in a byte buffer (`quantize.dfy`).
The fused `Q4_K x Q8_K` and `Q6_K x Q8_K` kernels each have an AVX2 and a scalar branch (`avx2.dfy`,
`q4k.dfy`, `q6k.dfy`). Bytes are 8-bit vectors, `int32` arithmetic wraps, and a `float32` value is the
expression that builds it (`float32.dfy`), so equality of results is bit-exact agreement under any rounding,
provided the compiler fuses no `x*y + z` of the source, which Go permits but does not do for plain amd64.
Read over the reals, the same expressions are dot products with the dequantised weights, and a whole product stays
within half a quantisation step per activation of the exact one (`q4k_meaning.dfy`, `q6k_meaning.dfy`,
`pooled_gemv.dfy`). Which weights those are is said from the other side too: blocks are packed byte by byte from their
codes, scales and minima, as the C reference of ggml packs them (`ggml-common.h`, `ggml-quants.c`), and kernels,
dequantisers, products and the embedding give back those of the element, row and token they were packed from
(`weight_blocks.dfy`, `written_weights.dfy`, `written_products.dfy`, `written_embedding.dfy`).

**Float kernels.** The `Q8_0`, `Q4_K` and `Q6_K` float dot products in eight-lane registers and in
lane arrays build the same expression, which means the dequantise-then-dot sum (`float_lanes.dfy`,
`dot_q8_0.dfy`, `dot_q4_k.dfy`, `dot_q6_k.dfy`); so does the plain `Q5_0` loop (`dot_q5_0.dfy`). The rotary
embedding turns heads in place, and scores see only relative positions (`rope.dfy`).

**Worker pool.** A state machine of one dispatcher and `n` workers with capacity-1 start channels, a
wait group and unlocked shared fields; results hold for every interleaving (`pool.dfy`). Row products
and attention heads are two jobs of it (`parallel_gemv.dfy`, `parallel_attention.dfy`).

**Attention, cache, session.** The attention kernels (`attention.dfy`), whose branches with fused vector
products and with plain scalar ones build one expression each and mean the same over the reals, the flat
key/value buffer (`kvcache.dfy`), the token embedding over a buffer (`embedding.dfy`), a decoder step
(`forward.dfy`) and the engine that ingests, rewinds, resets and generates (`session.dfy`). What a decoder computes from scratch for a token sequence is defined
separately (`transformer.dfy`, `generation.dfy`), which key/value head serves which query heads and what a layer
makes of them is written out over entries (`grouped_query.dfy`), and the cache agrees with recomputation after any
sequence of operations (`conversation.dfy`). All of this is about `float32` expressions, so stored equals recomputed, and
heads on workers equal heads in a loop, bit for bit.

**Tool scanner.** A whole-string splitter at the leftmost admissible tag (`scanner_spec.dfy`), the proof
that feeding bytes one at a time computes it (`scanner_refines.dfy`), the bounded buffers
(`scanner_sinks.dfy`), fragmentation (`scanner.dfy`), the class with its arrays
(`tool_scanner.dfy`), and whole documents, written out with their four tags, read back (`scanner_documents.dfy`).

**Tokenizer.** The byte/rune table, batch merging against one-at-a-time merging, encoding and decoding
(`byte_runes.dfy`, `bpe.dfy`, `bpe_rounds.dfy`, `tokenizer.dfy`, `encoding.dfy`, `round_trip.dfy`).

**GGUF.** The recursive metadata reader and file parser (`gguf_format.dfy`, `gguf_reader.dfy`,
`gguf_file.dfy`), the format byte by byte (`gguf_bytes.dfy`), its own table of tensor types (`ggml_types.dfy`) and an encoder that lays tensor
payloads out at aligned offsets, written from the format's description (ggml `docs/gguf.md`, "File
Structure", and the block structures of `ggml-common.h`), that they invert (`gguf_encoder.dfy`).

Where the code and its comments differ, the model follows the code: the longest tag has twelve bytes, not
eleven (`tool_scanner.go:151`), so eleven is what can be held back; the scanner never flushes held bytes at
the end of a stream; a second `<tool_call>` empties the payload captured so far; a stop-string match leaves
the last emitted token out of the cache (`c2slm.go:214-216`).

Four properties hold only under a condition, and the model says which.

- A round of batch merging is a number of one-at-a-time merges, on every word, if and only if the merge table
  has no race: no merge that uses the result of `(a, b)` ranks before `(a, b)` without an earlier-ranked merge
  of the unmerged symbols (`BpeRounds.RoundsAgreeIff`). Then the finished words are equal too
  (`BpeRounds.BatchIsOneByOne`). A table is race free, for instance, if every merge that uses a result ranks
  after all merges that give that result (`BpeRounds.LayeredIsRaceFree`). "Every word" includes words the loop
  may never hold; a race between single runes shows in the first round on a text (`BpeRounds.RuneRaceShows`).
  With a race the finished words can differ or still coincide; `BpeRounds.SelfRaceOnText` says which for one
  family of tables and texts.
- Decoding an encoding returns the text if and only if every symbol it was merged into is in the vocabulary
  (`RoundTrip.RoundTripIff`); `RoundTrip.LosesText` is a tokenizer that is built without complaint and loses a
  text.
- The size the parser gives a tensor is the format's if and only if its size switch knows the type or the tensor
  has no elements (`GgmlTypes.SizeAgreesIff`): payloads of the other declared types (`Q4_1`, `Q5_1`, `Q8_1`,
  `Q2_K`, `Q3_K`, `Q5_K`, `Q8_K`, `BF16`) are cut at the wrong length or reported out of range.
- Embedding a token gives a result that depends on the token alone, whatever the buffer held, if and only if the
  table has a type that `EmbedToken` handles and its length is a number of whole blocks
  (`Embedding.OverwritesIff`). A `Q4_K` table of 896 columns, the default length, keeps the last 128 entries of
  the step before (`Embedding.HalfBlockKept`), which a reset does not clear (`Embedding.SecondStepDiffers`). The
  results about the cache and the conversation are about models that meet the condition.

`dafny verify dfyconfig.toml` checks the whole project.

## Model

| member | source | states |
|---|---|---|
| Machine.ReadI16IsSum | internal/simd/c2_tensor_dot_q4_k_q8_k_gen.go:13-15 | two bytes joined with shift and or, read as a signed 16-bit word, are the low byte plus 256 times the signed high byte |
| Machine.ReadI16RoundTrip | internal/simd/c2_tensor_dot_q4_k_q8_k_gen.go:13-15 | a 16-bit sum written as two bytes is read back unchanged, for every value in range |
| Machine.Int8RoundTrip | internal/simd/c2_quantize_q8_k_gen.go:73 | a quant written as a byte is read back as the same signed value |
| Machine.U32RoundTrip | internal/simd/c2_quantize_q8_k_gen.go:49-57 | the four bytes of a scale rebuild its 32 bits |
| Avx2.DotLanesExact | internal/simd/c2_tensor_dot_q4_k_q8_k_gen.go:70-81 | for codes up to 63 the saturating pair multiply-add, pair add, little-endian store and reload give, lane by lane, the exact sum of four products: nothing saturates |
| Avx2.JoinWordIsSum | internal/simd/c2_tensor_dot_q4_k_q8_k_gen.go:70-81 | four stored bytes joined with shift and or are the weighted sum of their values, as an int32 |
| Avx2.MaskedShiftRight | internal/simd/c2_tensor_gemv2_q6_k_q8_k_gen.go:123-138 | a 16-bit-lane right shift followed by the mask is the per-byte shift: the bits carried over from the neighbour are exactly those masked away |
| Avx2.MaskedShiftLeft | internal/simd/c2_tensor_gemv2_q6_k_q8_k_gen.go:123-138 | two-bit fields shifted left by four in 16-bit lanes stay in their own bytes |
| Q8K.QuantizeRow | internal/simd/c2_quantize_q8_k_gen.go:11-91 | the in-place loop turns any old buffer into the block-by-block result, including what clearing to the end does |
| Q8K.FindAMax | internal/simd/c2_quantize_q8_k_gen.go:25-37 | the running maximum is the largest magnitude of the block |
| Q8K.AMaxBounds | internal/simd/c2_quantize_q8_k_gen.go:25-37 | no element of a block exceeds that magnitude, and it is zero only for a zero block |
| Q8K.BlocksSurvive | internal/simd/c2_quantize_q8_k_gen.go:38-48 | whatever zero blocks cleared, every block of the finished buffer is the encoding of its own 256 activations |
| Q8K.TailAfter | internal/simd/c2_quantize_q8_k_gen.go:43-44 | bytes past the last block keep their old value unless some block was zero, and then they are all zero |
| Q8K.BlockFields | internal/simd/c2_quantize_q8_k_gen.go:49-87 | the quants, scale bits and sixteen sums of a block are where the kernels read them, and the sums are those of the quants |
| Q8K.BlockLayout | internal/simd/c2_quantize_q8_k_gen.go:49-87 | byte by byte: the scale's 32 bits in bytes 0-3, the signed quants from byte 4, the two-byte sums from byte 260, low byte first |
| Q8K.RoundsAway | internal/simd/c2_quantize_q8_k_gen.go:59-74 | the quant is the nearest integer, halves away from zero, cut off at 127 on either side |
| Q8K.QuantError | internal/simd/c2_quantize_q8_k_gen.go:59-74 | scaling, rounding away from zero and clamping lose at most half a step |
| Q8K.BlockMeaning | internal/simd/c2_quantize_q8_k_gen.go:22-90 | quants stay in [-127,127], the stored sums read back as the sums of their quants, and every activation is within half a step (plus what storing the scale loses) of scale times quant |
| Q8K.RowMeaning | internal/simd/c2_quantize_q8_k_gen.go:11-91 | the same for every block of a row of any length, over any old buffer |
| ActivationRows.FreshRow | internal/simd/c2_quantize_q8_k_gen.go:11-91 | a freshly quantised row satisfies what the exactness theorems of the kernels ask for |
| ActivationRows.QuantizedDot | internal/simd/c2_quantize_q8_k_gen.go:11-91 | replacing activations by their quantised form moves any dot product by at most the sum over blocks of block error times absolute weight |
| Q4K.UnpackScales | internal/simd/c2_tensor_dot_q4_k_q8_k_gen.go:45-61 | the packed twelve bytes give the eight 6-bit scales and minima |
| Q4K.SubDotsAvx2 | internal/simd/c2_tensor_dot_q4_k_q8_k_gen.go:66-83 | the vector branch computes the two integer dot products of a pair of sub-blocks |
| Q4K.SubDotsScalar | internal/simd/c2_tensor_dot_q4_k_q8_k_gen.go:124-134 | the nibble loop computes the same two integers |
| Q4K.DotRow | internal/simd/c2_tensor_dot_q4_k_q8_k_gen.go:17-142 | both branches of the one-row kernel build the same float expression, for any bytes and any number of blocks |
| Q4K.Gemv2 | internal/simd/c2_tensor_gemv2_q4_k_q8_k_gen.go:9-215 | both branches of the fused kernel give each of its two rows the expression of the one-row kernel |
| Q4KMeaning.DequantizeRow | tensor/ops.go:342-380 | the dequantiser writes, element by element, the weights the kernel theorems speak of, and nothing else |
| Q4KMeaning.KernelMeaning | internal/simd/c2_tensor_dot_q4_k_q8_k_gen.go:48-140 | over the reals the kernel is the dot product of the dequantised weights with scale times quant: the minimum taken from adjacent block sums equals subtracting it element by element |
| Q4KMeaning.EndToEnd | internal/simd/c2_tensor_dot_q4_k_q8_k_gen.go:91-140 | quantising and multiplying is within the error bound of the exact dot product, for every weight row and every activation row |
| Q4KMeaning.EndToEndExact | internal/simd/c2_tensor_dot_q4_k_q8_k_gen.go:91-140 | where block scales survive storage, that bound is the sum over blocks of the greatest activation divided by 254 times the absolute dequantised weights |
| WrittenWeights.Q4Back | tensor/ops.go:342-380 | for every block packed byte by byte from 256 codes, eight scales, eight minima and two half-precision factors, the weight read is d times scale times code minus dmin times minimum of the element written, for all 256 |
| Q6K.CodeVectorExact | internal/simd/c2_tensor_gemv2_q6_k_q8_k_gen.go:123-138 | the register built from masked 16-bit shifts holds the 32 six-bit codes of its quarter |
| Q6K.WideCodeExact | internal/simd/c2_tensor_gemv2_q6_k_q8_k_gen.go:261-289 | the scalar branch, computing in wider words, gets the same six-bit codes |
| Q6K.QuarterAvx2 | internal/simd/c2_tensor_gemv2_q6_k_q8_k_gen.go:120-205 | lanes 0-3 and 4-7 are the two sixteen-element groups, and both rows' accumulators advance by the shared quarter step |
| Q6K.QuarterScalar | internal/simd/c2_tensor_gemv2_q6_k_q8_k_gen.go:236-388 | the element loop advances both accumulators by the same quarter step |
| Q6K.Gemv2 | internal/simd/c2_tensor_gemv2_q6_k_q8_k_gen.go:14-394 | for all bytes and block counts, both branches give each row the same int32 accumulators and so the same float expression |
| Q6KMeaning.AccModulo | internal/simd/c2_tensor_gemv2_q6_k_q8_k_gen.go:200-204 | for every input byte the int32 accumulator is the exact integer sum reduced modulo 2^32 |
| Q6KMeaning.AccExact | internal/simd/c2_tensor_gemv2_q6_k_q8_k_gen.go:200-209 | on quantised rows no int32 operation of a block overflows, at any step, so the accumulator is the exact integer sum |
| Q6KMeaning.KernelMeaning | tensor/oracle_q6_k_test.go:62-94 | over the reals each output is the dot product with the weights in the layout of the C reference: the -32 correction through block sums is exact |
| Q6KMeaning.EndToEnd | internal/simd/c2_tensor_gemv2_q6_k_q8_k_gen.go:200-212 | quantising and multiplying is within the error bound of the exact dot product |
| Q6KMeaning.EndToEndExact | internal/simd/c2_tensor_gemv2_q6_k_q8_k_gen.go:200-212 | where block scales survive storage, that bound is the sum over blocks of the greatest activation divided by 254 times the absolute dequantised weights |
| WrittenWeights.Q6Back | tensor/oracle_q6_k_test.go:62-94 | for every block packed byte by byte from 256 six-bit codes, sixteen signed scales and d, the weight read is d times scale times (code - 32) of the element written, for all 256 |
| WrittenWeights.Q8Back | tensor/ops.go:412-424 | the same for Q8_0: d times quant |
| WrittenWeights.Q5Back | tensor/ops.go:383-409 | the same for Q5_0, its fifth bits packed in one little-endian word: d times (code - 16) |
| WeightBlocks.WeightValue | tensor/ops.go:342-424 | the float expression of each packed weight, read over the reals, is that number |
| Gemv.Q4Range | tensor/ops.go:182-198 | whichever rows are paired and whichever is the odd tail, each output is that of the one-row kernel on its own row; rows outside the range are untouched |
| Gemv.Q6Range | tensor/ops.go:120-141 | the same for Q6_K, whose odd tail runs the two-row kernel on one row twice |
| Gemv.RowBack | tensor/ops.go:182-198 | a matrix laid out row after row, with anything behind it, is cut into exactly those rows, in order |
| Partition.UniqueOwner | engine/pool.go:98-115 | for any number of rows (or heads) and workers, each one is in exactly one worker's range |
| Partition.RangeWithin | engine/pool.go:101-104 | worker ranges are ordered and never reach past the last row, so the clamp never acts |
| Gemv.Q80Range | tensor/ops.go:77-84 | each row of the range gets its own Q8_0 dot product, rows outside are untouched |
| Gemv.Q50Range | tensor/ops.go:25-32 | the same for Q5_0 |
| PooledGemv.WorkerRows | engine/pool.go:98-115 | for all four weight types a worker computes its own rows and leaves all others alone |
| PooledGemv.ParallelGEMV | engine/pool.go:122-154 | for the two K types the buffer is quantised first; then, for all four types, on one thread or by workers in any order, every row is its kernel's value for that row alone |
| PooledGemv.ProductError | engine/pool.go:122-154 | for the K types every output of a whole product is within the quantisation bound of the exact dot product, whatever the shared buffer held before |
| PooledGemv.ProductExact | engine/pool.go:122-154 | for Q8_0 and Q5_0 every output is the exact dot product over the reals |
| WrittenProducts.WrittenError | engine/pool.go:122-154 | for a matrix packed from rows of blocks, output r of a Q4_K or Q6_K product is within the bound of the exact product of the activations with the weights row r was packed from |
| WrittenProducts.WrittenExact | engine/pool.go:122-154 | for Q8_0 and Q5_0 it is that product |
| WrittenProducts.WrittenWithin | internal/simd/c2_quantize_q8_k_gen.go:26-74 | where block scales survive storage, the bound is, element by element, the absolute weight times any bound on its block's activations, divided by 254 |
| FloatLanes.LanesTotal | internal/simd/c2_tensor_dot_q8_0_gen.go:105-120 | summing lane by lane and then across lanes is summing all elements: the loop interchange is exact over the reals |
| DotQ80.Dot8 | internal/simd/c2_tensor_dot_q8_0_gen.go:72-122 | both branches build the same expression for any number of blocks |
| DotQ80.DequantizeRow | tensor/ops.go:412-424 | the dequantiser writes the weights the theorem below speaks of |
| DotQ80.KernelMeaning | internal/simd/c2_tensor_dot_q8_0_gen.go:72-122 | over the reals the kernel is the dequantise-then-dot sum |
| DotQ4K.HalfAvx2 | internal/simd/c2_tensor_dot_q4_k_gen.go:56-66 | each lane of one half of a pair gets exactly the scalar lane's term |
| DotQ4K.PairScalar | internal/simd/c2_tensor_dot_q4_k_gen.go:117-150 | the lane array advances by the two sub-blocks of a pair, low nibbles first |
| DotQ4K.Dot4 | internal/simd/c2_tensor_dot_q4_k_gen.go:9-154 | both branches build the same expression for any number of blocks |
| DotQ4K.KernelMeaning | internal/simd/c2_tensor_dot_q4_k_gen.go:9-154 | over the reals the kernel with its factored minimum is the dequantise-then-dot sum |
| DotQ6K.CodeVectorAt | internal/simd/c2_tensor_dot_q6_k_gen.go:47-53 | the 16-byte registers hold, after the wrapped subtraction and sign extension, the codes minus 32 |
| DotQ6K.HalfAvx2 | internal/simd/c2_tensor_dot_q6_k_gen.go:31-77 | four quarter registers over two groups add to each lane what the lane arrays add |
| DotQ6K.WideIntExact | internal/simd/c2_tensor_dot_q6_k_gen.go:116-143 | the lane-array branch, in bytes for two quarters and in 32-bit words for the others, gets the same six-bit codes |
| DotQ6K.HalfScalar | internal/simd/c2_tensor_dot_q6_k_gen.go:88-147 | the four quarter arrays of a half add the same to each lane |
| DotQ6K.Dot6 | internal/simd/c2_tensor_dot_q6_k_gen.go:9-151 | both branches build the same expression for any number of blocks |
| DotQ6K.KernelMeaning | internal/simd/c2_tensor_dot_q6_k_gen.go:9-151 | over the reals the kernel is the dequantise-then-dot sum |
| WrittenProducts.FloatProducts | internal/simd/c2_tensor_dot_q6_k_gen.go:9-151 | the Q4_K and Q6_K float kernels on a packed row are the dot product with the weights it was packed from |
| DotQ50.DotRow | tensor/ops.go:40-74 | the loop builds the expression of the theorem below for any number of blocks |
| DotQ50.DequantizeRow | tensor/ops.go:383-409 | the dequantiser writes the weights that theorem speaks of, and nothing else |
| DotQ50.KernelMeaning | tensor/ops.go:40-74 | over the reals the interleaved loop, its fifth bits taken from one word, is the dequantise-then-dot sum |
| RoPE.Apply | tensor/ops.go:262-286 | every head is rotated by the angles of its position and nothing else changes; no table, a position outside it or too many heads change nothing |
| RoPE.RotatedEntries | tensor/ops.go:262-286 | pair i of each head is turned by the table's own entries in place pos times half the head dimension plus i; an odd last coordinate stays |
| RoPE.TurnedMeaning | tensor/ops.go:274-285 | over the reals the rotated head is the vector turned by the table's angles |
| RoPE.RelativeScore | tensor/ops.go:276-284 | rotating a query and a key is rotating the query alone by the difference of the angles |
| RoPE.ScoreByDistance | tensor/ops.go:236-286 | with a table that obeys the subtraction formulas, a query scores a key by the distance of their positions alone |
| Pool.StepInv | engine/pool.go:86-154 | every single step of dispatcher or worker keeps the invariant of the protocol |
| Pool.RunInv | engine/pool.go:86-154 | the invariant holds in every state of every run |
| Pool.WaitGroupCounts | engine/pool.go:149-153 | the wait group is the number of workers with a pending start or still running, plus those the dispatcher has yet to start |
| Pool.FieldsStable | engine/pool.go:142-147 | while any worker is active, no step changes the shared fields or the mode, and they are those of the current dispatch |
| Pool.SendReady | engine/pool.go:150-152 | a start never blocks |
| Pool.ExactlyOnce | engine/pool.go:86-119 | between dispatches, each worker has run each dispatch exactly once with that dispatch's fields, and nothing else was run |
| Pool.DispatchResult | engine/pool.go:122-154 | a finished dispatch has written every row or head its value and nothing else, in every interleaving |
| Pool.Progress | engine/pool.go:149-153 | while a dispatch is in flight some step is enabled: no deadlock |
| Pool.DispatchBounded | engine/pool.go:149-153 | every dispatch finishes within a bound that depends only on its fields and the number of workers |
| Pool.DispatchReturns | engine/pool.go:86-208 | every run that can take no further step of a dispatch, or went on longer than the bound, has the dispatcher idle again with every row or head of that dispatch at its value |
| ParallelGemv.ParallelMatchesSequential | engine/pool.go:122-154 | under every interleaving a parallel product of any of the four types holds in each row the single-threaded value |
| ParallelAttentions.ParallelMatchesSequential | engine/pool.go:180-208 | under every interleaving each head ends up with the value of the sequential head loop |
| Attention.QkRowAvx2 | internal/simd/c2_tensor_attn_gen.go:19-49 | sixteen, eight and one at a time, the vector loops build the expression of fused lanes, pairwise horizontal sum and scalar tail, for every remainder |
| Attention.AttnQk | internal/simd/c2_tensor_attn_gen.go:9-66 | scores 0..pos are the expressions of the branch taken, nothing else is touched |
| Attention.ScoreMeaning | internal/simd/c2_tensor_attn_gen.go:19-66 | over the reals both branches are the scaled plain dot product: neither blocking nor fused products matter |
| Attention.Columns64 | internal/simd/c2_tensor_attn_gen.go:86-108 | eight registers advanced row by row hold the fused chains of 64 columns |
| Attention.AttnAv | internal/simd/c2_tensor_attn_gen.go:68-153 | for every head dimension each column of its own slice is the chain of its weights and values, fused exactly in whole groups of eight with vector registers, and nothing else changes |
| KVCaches.SlotInjective | engine/kvcache.go:127-140 | different key/value vectors have different places |
| KVCaches.OffsetIsSlot | engine/kvcache.go:127-140 | the offset is the number of vectors before it, by keys or values, layer, head and position, times the head dimension |
| KVCaches.SlotSurjective | engine/kvcache.go:127-140 | every place in the buffer belongs to some vector |
| KVCaches.Inside | engine/kvcache.go:127-140 | every vector lies inside the buffer |
| KVCaches.Disjoint | engine/kvcache.go:127-140 | no two vectors overlap |
| KVCaches.Strided | engine/forward.go:147-150 | the base a kernel strides from plus p head dimensions is the offset of position p |
| KVCaches.KVCache.Reset | engine/kvcache.go:101-103 | the cache stands for no tokens; the buffer is untouched |
| KVCaches.KVCache.Rewind | engine/kvcache.go:109-117 | the last n tokens are forgotten, never fewer than none or more than all |
| KVCaches.KVCache.StoreTokenID | engine/kvcache.go:120-125 | one recorded token changes, or none outside the capacity |
| KVCaches.KVCache.StoreKV | engine/kvcache.go:143-157 | exactly the vectors of one layer and position change, each to its head's part; a position outside is ignored |
| KVCaches.StoreThenGet | engine/kvcache_test.go:35-60 | what is stored for a head at a position is what is read back for it |
| Transformer.HeadMeaning | engine/forward.go:143-155 | over the reals a head's output is attention as defined: value vectors weighted by the softmax of the scaled dot products, with or without vector registers |
| Embedding.EmbedInto | engine/model.go:221-247 | the buffer afterwards: the dequantised whole blocks of the token's row, or of token 0's for an id outside the vocabulary, and the old entries past them; an unknown type writes nothing |
| Embedding.SameAfterIff | engine/model.go:221-247 | two buffers look alike after embedding a token exactly if they already agreed past the whole blocks |
| Embedding.OverwritesIff | engine/model.go:221-247 | the result depends on the token alone exactly for handled types and lengths of whole blocks (or of zero) |
| Embedding.HalfBlockKept | engine/model.go:224-229 | a concrete failing length, with a handled type: 896 columns of Q4_K keep the last 128 entries |
| Embedding.SecondStepDiffers | engine/forward.go:111-114 | past the whole blocks what a layer added to the hidden state is still there when the same token is embedded again |
| WrittenEmbedding.OwnRow | engine/model.go:221-247 | over a table packed from rows of blocks, each id of the vocabulary gets the weights of its own row, any other id those of row 0, and entries past the whole blocks stay |
| WrittenEmbedding.UnknownKept | engine/model.go:225-246 | a type other than F32, Q5_0, Q8_0 and Q4_K leaves the buffer as it was |
| AttentionHeads.AttentionHead | engine/forward.go:143-155 | a head's output slice is its attention over the cached positions 0..pos; other heads' slices and the scratch beyond pos stay as they were |
| GroupedQuery.GroupOf | engine/forward.go:144 | with g query heads to a key/value head, head k serves exactly the query heads from k times g up to (k+1) times g |
| GroupedQuery.TargetOfGroup | engine/forward.go:143-155 | what `AttentionHead` writes for query head h is attention of its slice of the query over the cached vectors of the key/value head that serves it |
| GroupedQuery.HeadOfGroup | engine/pool.go:180-208 | the same for recomputation: over the slices of the keys and values that belong to that head |
| GroupedQuery.AttendedEntry | engine/forward.go:159-168 | over the reals, coordinate d of head h in the joint output is the sum of the entries of the values of the head that serves it, weighted by the softmax of the scaled dot products of the query's and the keys' slices |
| AttentionHeads.RunAttnHeads | engine/pool.go:159-175 | a worker writes its own heads' slices and its own scratch region only |
| AttentionHeads.ParallelAttention | engine/pool.go:180-208 | below the threshold or in any order of workers, every head's slice holds, bit for bit, the head's output |
| AttentionHeads.DispatchAttention | engine/forward.go:159-168 | with a pool or without one the outputs are the same |
| Transformer.Causal | engine/forward.go:54-138 | a position's hidden states depend on the tokens up to it and on nothing behind it |
| GroupedQuery.LayerUnfolded | engine/forward.go:54-130 | the hidden state behind a layer comes from that position's state, its own query, and attention over the keys and values of every position up to it, each key at its own position; the first is the embedding |
| Forward.CachedIsRecomputed | engine/forward.go:102-106 | what attention finds in the cache is what recomputation would attend to |
| Forward.AgreesPrefix | engine/kvcache.go:105-117 | forgetting the last tokens keeps the rest of the cache right, with stale entries left in place |
| Forward.Forward | engine/forward.go:54-138 | a step on a cache that agrees with recomputation keeps that, returns the recomputed hidden state, and changes only the vectors of its position |
| Session.Engine.Reset | c2slm.go:75 | the conversation is empty again, with the old entries still in the buffer |
| Session.Engine.Rewind | engine/kvcache.go:109-117 | rewinding keeps the cache equal to recomputation of the shorter history |
| Session.Engine.IngestFrom | c2slm.go:92-117 | clamping, rewinding and breaking at capacity give the stated history, the cache agrees with it, and the hidden state returned is that of the history alone |
| Generation.SplitIngestion | c2slm.go:92-117 | ingesting two non-empty parts one after the other leaves the history of one call, also where the cache fills up |
| Generation.IngestedIs | c2slm.go:92-117 | from a position clamped to the history the tokens replace what was there, as far as the capacity reaches |
| Session.Engine.ProjectLogits | c2slm.go:154-170 | the logits buffer holds the raw logits, each but the end tokens' decayed once per occurrence of its token among the last 64 tokens (all, while there are fewer) |
| Generation.PenaltyByCount | c2slm.go:156-170 | each logit decays once per occurrence of its token in the window, end tokens never |
| Generation.RecentPenalty | c2slm.go:157-170 | before a choice each logit but the end tokens' decays once per occurrence of its token among the last 64 tokens, or among all while there are fewer |
| Generation.NextIsGreatest | c2slm.go:157-180 | the next token is the least one whose logit, so decayed, is the greatest |
| Generation.DecayedValue | c2slm.go:164-168 | over the reals k decays divide a positive logit by 1.15 to the power k and multiply any other by it |
| Generation.DecayLowers | c2slm.go:164-168 | over the reals the penalty never raises a logit and never moves it across zero |
| Session.Engine.SelectGreedy | c2slm.go:173-180 | the selected id is the least one with the greatest logit |
| Session.Engine.Generate | c2slm.go:144-226 | the loop's text and cached tokens are those of the reply to the history, on every exit path, and the cache still agrees with recomputation |
| Generation.ReplyAccounting | c2slm.go:182-222 | the newly cached tokens are those whose decodings form the text, plus the end token if there was one, minus the last one exactly on the stop-string exit |
| Generation.ReplyGreedy | c2slm.go:148-180 | every generated token is the greedy choice after the tokens before it; their number stays within the budget |
| Generation.ReplyStopsFirst | c2slm.go:191-216 | generation stops at the first piece that completes a stop string or that the callback refuses, and the exit tells which |
| Generation.StoppedIff | c2slm.go:204-212 | a text is stopped exactly if a stop string occurs in it, anywhere |
| Generation.ReplyResumes | c2slm.go:148-223 | a reply cut short by its budget can be resumed: two budgets in a row give the reply of their sum |
| Session.Engine.GenerateStream | c2slm.go:64-82 | the answer is that of the prompt on an empty cache, whatever was cached before; errors leave the conversation as it was |
| Session.Engine.GenerateStreamSession | c2slm.go:124-138 | the answer is a function of the history and the new tokens, and so is the new history |
| Generation.SessionIsReplay | c2slm.go:119-138 | a turn that reuses the cached prefix answers exactly as replaying the whole conversation from an empty cache |
| Generation.AnswerFails | c2slm.go:124-131 | the errors are exactly the empty prompt and the one that would reach 16384 tokens, and leave the history as it was |
| Conversation.Perform | c2slm.go:58-226 | after any sequence of resets, rewinds, ingestions and generations the cache agrees with recomputing its tokens |
| Conversation.Recompute | engine/kvcache.go:13-17 | feeding the recorded tokens to a fresh cache from position 0 rebuilds every cached vector |
| ScannerRefines.SplitSnoc | tool_scanner.go:123-178 | the split of a longer string is the split of the shorter one, fed one more byte |
| ScannerRefines.Refine | tool_scanner.go:123-178 | feeding bytes one at a time after holding some back cuts the whole stream at its leftmost admissible tags |
| ScannerRefines.HeldBack | tool_scanner.go:159-178 | what is held back is empty or a proper start of an admissible tag |
| ScannerRefines.WaitingBound | tool_scanner.go:149-157 | that is at most eleven bytes, so the eviction path is unreachable |
| ScannerRefines.Conserved | tool_scanner.go:123-260 | routed bytes, tags crossed and bytes held back are the stream: nothing is lost, duplicated or reordered |
| ScannerRefines.RunAppend | tool_scanner.go:105-117 | cutting a stream in two changes neither the routed bytes nor the final state |
| ScannerSinks.RouteFits | tool_scanner.go:262-269 | while the visible text of a call fits, it is returned whole and nothing else is affected |
| ScannerSinks.Captures | tool_scanner.go:227-287 | each capture is the first bytes, up to its capacity, of what was routed to it since it was last opened; the overflow flag is raised exactly when one outgrew its capacity |
| Scanner.Fragments | tool_scanner.go:105-117 | however a stream is cut, the scanner ends where one pass over the whole stream ends |
| Scanner.FragmentationInvariance | tool_scanner.go:105-117 | two cuttings of one stream that overflow no visible buffer give the same visible text, state, held bytes, captures and flag |
| Scanner.SmallFragmentsFit | tool_scanner.go:262-269 | fragments of at most 8181 bytes never overflow the visible buffer |
| Scanner.FreshScanner | tool_scanner.go:60-117 | a fresh scanner, however it is fed, shows and captures what the whole-string splitter says |
| ScannerDocuments.DocumentRead | tool_scanner.go:97-241 | any document of texts, `<think>` blocks and `<tool_call>` blocks, however it is cut, is read back: its texts are shown but for the start of a tag, its last block of each kind is captured as far as it fits, overflow is set exactly if one did not fit, a finished call is reported exactly if there is one, and the scanner is back in text |
| ScannerDocuments.SmallFragmentsRead | tool_scanner.go:105-117 | for fragments of at most 8181 bytes that needs no assumption about buffers |
| ScannerDocuments.UnfinishedRead | tool_scanner.go:123-241 | while a block is open its content is captured and not shown, and the scanner is in its state |
| ScannerDocuments.ReadDocument | tool_scanner_test.go:10-22 | driving the class with a document leaves exactly that in its buffers |
| ScannerDocuments.ThoughtHidden | tool_scanner_test.go:38-53 | text, `<think>`, a thought, `</think>`, text: the texts are shown, the thought is captured whole, the scanner is back in text |
| ScannerDocuments.ToolCallExtracted | tool_scanner.go:97-117 | the same for `<tool_call>`, with the end of the call reported |
| ToolScanner.ToolScanner.constructor | tool_scanner.go:60-62 | a new scanner is in the initial state with buffers of the fixed sizes |
| ToolScanner.ToolScanner.Reset | tool_scanner.go:65-73 | any scanner is put back into the initial state |
| ToolScanner.ToolScanner.FlushPendingFront | tool_scanner.go:245-260 | the first held byte is routed by state and the others move up one place |
| ToolScanner.ToolScanner.PushPending | tool_scanner.go:149-157 | a byte is held; only a full buffer gives up its first byte |
| ToolScanner.ToolScanner.HasPrefixBytes | tool_scanner.go:291-301 | true exactly when the held bytes are a prefix of the tag |
| ToolScanner.ToolScanner.ClassifyPending | tool_scanner.go:193-225 | the tag the held bytes are, and whether they can still become one, over all tags of the state |
| ToolScanner.ToolScanner.ApplyAction | tool_scanner.go:227-241 | the transition and the capture it empties |
| ToolScanner.ToolScanner.ResolvePending | tool_scanner.go:165-178 | the loop over the held bytes gives up, waits or crosses a tag as the byte-level machine does |
| ToolScanner.ToolScanner.FeedByte | tool_scanner.go:123-147 | one byte takes the scanner to the state the byte-level machine says, the full-buffer case included |
| ToolScanner.ToolScanner.Push | tool_scanner.go:105-117 | a call returns the visible text of its fragment, whether a call ended and whether the state is inside one, and leaves the value the specification says |
| ToolScanner.Drain | tool_scanner.go:97-117 | driving a scanner with any fragments shows and holds what the splitter says of their concatenation |
| ByteRunes.ByteRuneInjective | tokenizer/bpe.go:244-281 | different bytes stand for different runes |
| ByteRunes.RuneOfByte | tokenizer/bpe.go:244-281 | the 68 bytes that are not printable have the runes 256 to 323 in byte order, every other byte its own value |
| ByteRunes.Utf8Means | tokenizer/bpe.go:207-222 | the bytes written for a rune are its UTF-8 encoding, U+FFFD for a surrogate or a value out of range |
| ByteRunes.InitByteEncodings | tokenizer/bpe.go:244-281 | the two tables built by the loops are total on bytes and inverse to each other |
| Bpe.FindBest | tokenizer/bpe.go:150-167 | the scan finds the leftmost position of the lowest-ranked mergeable pair, or that there is none |
| Bpe.MergeBest | tokenizer/bpe.go:169-181 | the inner loop replaces every occurrence of the pair from the left without overlap |
| Bpe.MergeAllFirst | tokenizer/bpe.go:169-181 | that is: what is before the first occurrence stays, the occurrence is joined, and the rest is treated in the same way behind it |
| Bpe.MergeLoop | tokenizer/bpe.go:140-188 | the loop terminates with the batch-merged word |
| Bpe.BatchResult | tokenizer/bpe.go:140-188 | merging preserves the concatenation, never lengthens the word and ends with no mergeable adjacent pair |
| BpeRounds.RoundsAgreeIff | tokenizer/bpe.go:149-185 | with distinct ranks, every round of the loop is a number of merges of one leftmost lowest-ranked pair, on every word of non-empty symbols, whether the loop can hold it or not, if and only if the table has no race |
| BpeRounds.RightRaceShows | tokenizer/bpe.go:149-185 | for every table with a race on the right, an arbitrary word, its symbols of any length, on which merging one pair at a time never passes through the round's result |
| BpeRounds.LeftRaceShows | tokenizer/bpe.go:149-185 | the same for a race on the left |
| BpeRounds.RuneRaceShows | tokenizer/bpe.go:140-185 | for every table with a race between single runes, a text whose very first round is not a number of single merges |
| BpeRounds.BatchIsOneByOne | tokenizer/bpe.go:149-185 | without races batch merging ends with the word that merging one pair at a time ends with, overlapping runs included |
| BpeRounds.LayeredIsRaceFree | tokenizer/bpe.go:74-79 | a table in which every merge that uses a result ranks after the merges that give it has no race |
| BpeRounds.RaceFreeIsWeaker | tokenizer/bpe.go:149-185 | a concrete race-free table that is not of that kind |
| BpeRounds.SelfRaceDiffers | tokenizer/bpe.go:149-185 | for every table that ranks (a+b, a) before (a, b), the finished words of a b a b are equal exactly if the last words of both algorithms can still be joined |
| BpeRounds.SelfRaceOnText | tokenizer/bpe.go:140-185 | the same for the text of two runes repeated, where the loop starts |
| BpeRounds.UnlayeredDiffers | tokenizer/bpe.go:149-185 | a concrete table and word where they differ |
| Tokenizers.MergesDistinct | tokenizer/bpe.go:74-79 | the merge table built from any list gives different pairs different ranks |
| Tokenizers.RankIsLast | tokenizer/bpe.go:74-79 | a pair is in the table exactly if some line lists it, with the place of the last such line as its rank |
| Tokenizers.SpecialNameIs | tokenizer/bpe.go:57-69 | special names start with "<\|" and end with "\|>", and the three fixed names are of that kind |
| Tokenizers.NewTokenizer | tokenizer/bpe.go:29-82 | the tables are inverse where they should be, special tokens are exactly the names between "<\|" and "\|>", and only an empty vocabulary is refused |
| Tokenizers.Decode | tokenizer/bpe.go:191-229 | buffering and flushing bytes writes the texts of the tokens in order |
| Tokenizers.DecodeAppend | tokenizer/bpe.go:191-229 | decoding a concatenation is concatenating the decodings |
| Tokenizers.StreamingDecode | c2slm.go:191 | the pieces streamed token by token join to the whole decoding |
| Encoding.EncodeTextChunk | tokenizer/bpe.go:125-138 | the ids are those of the merged symbols of the chunk's pieces that are in the vocabulary |
| Encoding.FindSpecial | tokenizer/bpe.go:95-104 | some special token that occurs earliest, in whatever order the table is walked |
| Encoding.Encode | tokenizer/bpe.go:85-123 | the ids are those of some cutting of the text at its earliest special tokens |
| RoundTrip.CutText | tokenizer/bpe.go:94-120 | cutting at special tokens loses nothing |
| RoundTrip.RoundTripIff | tokenizer/bpe.go:85-241 | decoding an encoding gives back the text if and only if every symbol is in the vocabulary, whichever special token wins a tie |
| RoundTrip.ByteBackIff | tokenizer/bpe.go:85-241 | a one-byte text comes back if and only if its byte's rune is in the vocabulary |
| RoundTrip.LosesText | tokenizer/bpe.go:29-82 | a vocabulary of one special token is accepted and loses the text "A" |
| RoundTrip.EncodeDecode | tokenizer/bpe.go:85-241 | with all byte runes and merge results in the vocabulary, printable special tokens and a partitioning pre-tokeniser, every text comes back unchanged |
| GgufReader.Reader.ReadStr | gguf/reader.go:295-306 | length-prefixed bytes, end of file, or a panic when the length wraps around 64 bits |
| GgufReader.Reader.ReadVal | gguf/reader.go:308-392 | the recursive reader with its three specialised array loops returns what the general definition says, or its error, and leaves the cursor behind the value |
| GgufFormat.ReadValue | gguf/reader.go:308-392 | every success moves the cursor forward inside the data, so recursion over nested arrays ends with the bytes |
| GgufBytes.NumberRead | gguf/reader.go:218-293 | numbers of one, two, four and eight bytes are read lowest byte first, or the data end too early |
| GgufBytes.FixedValues | gguf/reader.go:308-333 | by their codes 0-7 and 10-12, the types of fixed size: unsigned, two's complement, float bits, boolean |
| GgufBytes.StringValue | gguf/reader.go:295-306 | code 8 is a string after eight bytes of length; above 12 there is no type |
| GgufBytes.ArrayValue | gguf/reader.go:334-388 | code 9 is an array after four bytes of element type and eight of length |
| GgufBytes.Packed | gguf/reader.go:345-388 | arrays of strings, 32-bit floats and 32-bit integers keep their elements in order, all others value by value |
| GgufBytes.HeaderRead | gguf/reader.go:394-423 | a file starts with "GGUF", version 2 or 3, and the two counts; anything else is refused with its error |
| GgufBytes.AlignmentIs | gguf/reader.go:443-451 | without the key general.alignment, or with a value there that is no unsigned number, the alignment is 32 |
| GgufBytes.IndexLast | gguf/reader.go:453-487 | a name stands for the last tensor of that name |
| GgufEncoder.ValueBack | gguf/reader.go:308-392 | reading an encoded value, nested arrays included, returns it and advances the cursor by exactly the encoded length |
| GgufFile.AlignLeast | gguf/reader.go:490-495 | the data offset is the least multiple of the alignment at or behind the tensor table |
| GgufFile.TensorSize | gguf/reader.go:513-546 | the size loop and switch compute whole blocks times block bytes in 64-bit arithmetic |
| GgufFile.ByteSizeExact | gguf/reader.go:513-546 | for sizes below 2^64 nothing wraps |
| GgmlTypes.HandledSize | gguf/reader.go:513-546 | for every type the size switch knows and any shape that fits a file, the size is rows times whole blocks times the format's block bytes |
| GgmlTypes.SizeAgreesIff | gguf/reader.go:513-546 | over all declared types and payloads below 2^63 bytes, the 64-bit size is the format's exactly for the known types and for tensors without elements |
| GgmlTypes.BF16Misread | gguf/reader.go:543-546 | a concrete failing tensor: eight BF16 elements take 16 bytes, the computed size is 32 |
| GgufFile.File.ParseAll | gguf/reader.go:394-510 | the fields after parsing are the contents of the file, or the error is the one the file deserves |
| GgufEncoder.SliceBackIff | gguf/reader.go:497-507 | over all declared types, the slice cut for a payload laid out in a file is that payload exactly for the known types and for tensors without elements |
| GgufEncoder.ParseInvertsEncode | gguf/reader.go:394-510 | parsing an encoded description returns its header counts, metadata, tensor table, name index and data offset; every tensor's data is its payload, at an aligned offset |
| GgufEncoder.WriteThenRead | gguf/reader.go:394-510 | the parser itself, run on an encoded description, ends with those fields and payloads |

## Left out

- Q8K.QuantizeRow: activations and scales are reals here; `float32` rounding of the maximum, the scale and the product is not modelled, nor is overflow: for a block whose greatest magnitude is so small that 127 divided by it is infinite, the code multiplies by infinity and a zero element becomes NaN; and how a scale becomes bits is a parameter. The error bounds carry a separate term for what storing the scale loses, which is zero when it is stored exactly.
- Q4K.Gemv2: the two output pointers are results, and the loop that unpacks the scales of both rows at once is two unpackings; rows and activations, which the kernel only reads, are sequences.
- Q6K.Gemv2: the same for its pointers and inputs.
- Pool.WaitGroupCounts: while starts are being sent the count also includes workers not yet started, because the code raises it once by the number of workers; the statement says so.
- Pool.DispatchResult: `Close` and the quit channel are not modelled; a dispatch is assumed not to race with `Close`. Computing one row or head is one step.
- Forward.Forward: norms, projections, biases, rotation, softmax and the feed-forward block are arbitrary functions of one position's hidden state (softmax keeps its length), so weight tensors are assumed to have a type the row products handle: `ParallelGEMV` writes nothing for the others, and the output would keep its old contents. The embedding table is assumed to have a handled type and a length of whole blocks, as `Embedding.OverwritesIff` says it must, and to hold a row for every id of the vocabulary (the code panics on a row it does not hold). The attention output buffer has exactly heads times head dimension entries.
- Session.Engine.Generate: comparisons of logits follow an arbitrary order of the `float32` values, in which there is no NaN. A callback is a function of the pieces so far. The position argument, always the cursor, is not a parameter.
- Generation.DecayLowers: the bound is over the reals, with the sign test read the same way.
- Tokenizers.NewTokenizer: merge lines arrive already split at spaces; the ids are unbounded; vocabulary and merge strings are sequences of runes, so valid UTF-8 is assumed.
- Encoding.Encode: the pre-tokenisation expression is any function; the round trip asks only that its pieces join to the text.
- GgufReader.Reader.ReadVal: allocating an array of the declared count always succeeds; the code panics or exhausts memory on a count far beyond the file.
- GgufEncoder.ParseInvertsEncode: tensors have at least one dimension, and a type the size switch knows or no elements; for tensors of the other declared types `GgufEncoder.SliceBackIff` says that they are misread. A tensor without dimensions has no payload for the parser.
- GgufFile.File.ParseAll: memory mapping, prefetching and the 24-byte minimum of `Open` are not part of this model; after an error the fields are unspecified, as the caller discards them.
- ToolScanner.ToolScanner.Push: the returned text is a copy; that it aliases the scanner's buffer until the next call is not modelled.
- `fp16` to `float32` conversion is an uninterpreted function of the two bytes.
- PooledGemv.ParallelGEMV: the quantiser's input is the activations read as reals, as in `Q8K.QuantizeRow`.
- `F32` weight rows, the row loops over the float `Q4_K` and `Q6_K` kernels and the choice between float and quantised activations (`engine/model.go:260-263`) are not modelled; without a pool `Q4_K` and `Q6_K` products use float activations and are not equal to the quantised ones.
- Restricted logits (`ComputeLogits` with target tokens) use float activations and differ from the full projection; only the full projection is modelled, as a function of the hidden state.
- RoPE.ScoreByDistance: the subtraction formulas are asked of the table's entries read as reals; how the table is computed is not modelled, and rounded entries obey them only approximately.
- `RMSNorm`, `SwiGLU`, `Softmax` and the computation of the rotary angles are numeric approximations left uninterpreted.
- The files compiled without SIMD repeat the scalar branches and are not modelled separately.
- Model loading, the terminal interface, the HTTP server and the coding tools.
