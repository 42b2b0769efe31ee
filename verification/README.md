# Attention kernels, shared prompts and their bookkeeping

This project models the repository's attention kernels and the index arithmetic, layouts and protocols
around them, and proves what they are for. `dafny verify dfyconfig.toml` checks everything.

The reference for all kernels is one datatype, `Attention.Problem`: masked softmax attention over real
numbers, its output, its log-sum-exp and the gradients of its output. `AttentionAdjoint` justifies those
gradients independently of any kernel: they are the adjoint of the differentiated forward, which
`AttentionTangent` shows to be its first-order part. `AttentionLaws` says what the problem computes without its
definitions, and `TritonMeaning` and `DualKVMeaning` carry that to the rows the kernels store. The exponential
and the logarithm are arbitrary functions that satisfy the laws in `ExpLogs` (`exp(a + b) = exp(a) exp(b)`,
order, and being inverse to each other); minus infinity is a value of its own.

The parts, hardest first:

- **Triton kernels** (`OnlineSoftmax`, `TritonKernel`, `TritonForward`, `TritonBackward`). The forward keeps
  only a maximum, a log-sum-exp and an accumulator per row; the backward recomputes probabilities tile by
  tile. Both write arrays through masks as the kernels do, for every sequence length, block size, head
  dimension, bias kind and causal flag. dq is the same for sequential column blocks and for any order of
  atomic adds (`AtomicAdds`). `TritonStepNormalised` is the older kernel that divides by `l` in every step; it
  is proved against the same reference and against the newer kernel.
- **DualKV kernels** (`DualKV`, `DualKVTiles`, `DualKVForward`, `DualKVBackward`, `DualKVAtomicAdds`). Keys are
  split into a shared context and a decoded part that are padded separately. The reverse walk, the two masks, the rows
  without keys, the accumulation of context gradients over a batch and the stores of decoded gradients are
  proved against attention on the joined keys with the bottom-right causal mask, for one program after another
  and for any order of the atomic adds of a whole batch.
- **Prompt sharing** (`PromptSharing`, `LayerRows`, `LayoutChecks`, `KernelMeaning`). One prompt copy per response, one
  shared prompt, and padded rows mean the same for any number of decoder layers. The row-wise parts of a
  layer are arbitrary functions and attention is an arbitrary function of a query and what it sees; `LayerRows`
  says what each row of each layout is, and `KernelMeaning` shows that the DualKV kernel is an instance.
- **Tile ranges** (`BlockRanges`, `WindowParams`, `CxxArithmetic`). Division truncates as in C++. The ranges
  are proved against the element-wise mask, to cover it and to begin and end no further than needed, and composed
  with the host's rewriting of windows.
- **Protocols** (`RingPipeline`, `GqaSemaphore`). Step systems with an invariant, safety over every run,
  progress, the number of steps, and the final memory.
- **Encodings and loops** (`BlockMask`, `BertPadding`, `NormalizeLengths`, `PadToTarget`), with the stable
  sort in `StableSorting` and sums in `Sequences` and `RealSums`.

Where the code does not do what its documentation says, the code is modelled and the difference is a lemma:

- `pad_to_target` promises exactly the target. It keeps that promise for a monotone tokenizer if and only if
  some prefix has exactly that count; `NeverExact` is a tokenizer for which none has. It always keeps it where the
  empty prompt fits, characters change the count by at most one, and every added passage costs a token. That it does not exceed
  the target is certain, for every tokenizer, if the empty prompt fits. For a monotone tokenizer that decodes no
  tokens to no text the result exceeds the target exactly when the empty prompt does not fit, and then the
  assertion after the loop over prompts fails.
- `unpad_input` sums two integer masks. Where both select a token, `cu_seqlens` counts it twice and the
  indices once; `SegmentsMatchIff` is the exact condition and `BothMasksMiscount` an input. (The sum of boolean
  masks is their union, a mask of zeros and ones.)
- `unpad_input` documents `seqused` as counting both masks. It counts the attention mask alone, the tokens in
  use (`SegmentsBeyondUsed`).
- Concatenated samples that do not fit their row leave `cu_seqlens` past the end of the indices;
  `OffsetsEndIff` is the exact condition and `OverfullRow` an input.

A limit for callers to come: the query-major range takes no account of sink tokens although the mask does.
Every call in the repository passes zero sink tokens, for which `QueryMajorCovers` holds; `SinksVisitedIff` is
the exact condition under which others would lose nothing, and `SinkNotVisited` a launch that would.

## Model

| member | source | states |
|---|---|---|
| Attention.Problem.DenominatorPositive | flash-attention/flash_attn/flash_attn_triton.py:217-252 | the softmax denominator is positive exactly for rows that have an allowed key |
| Attention.Problem.ProbsSumToOne | flash-attention/flash_attn/flash_attn_triton.py:207-217 | a row with a key is a probability distribution, positive exactly on its allowed keys |
| Attention.Problem.ProbFromLse | flash-attention/flash_attn/flash_attn_triton.py:539-548 | probabilities are `exp(s - lse)`, the form in which the backward kernels recompute them |
| Attention.Problem.DeltaIsMean | flash-attention/flash_attn/flash_attn_triton.py:319-329 | the row sum of output times upstream gradient is the mean of the probability gradients |
| Attention.Problem.ScoreGradFromDelta | flash-attention/flash_attn/flash_attn_triton.py:573-577 | `p * (dp - delta)` equals the chain rule through the softmax Jacobian |
| Attention.Problem.MaskedScoreGrad | flash-attention/flash_attn/flash_attn_triton.py:406-410 | masked pairs have no score gradient |
| AttentionLaws.BiasScalesWeight | flash-attention/flash_attn/flash_attn_triton.py:193-211 | raising a bias by `x` multiplies the weight by `exp(x)` |
| AttentionLaws.KeyScalesWeight | flash-attention/flash_attn/flash_attn_triton.py:180-211 | moving a key by `t` multiplies its weight by `exp(scale * (q . t))` |
| AttentionLaws.ZeroKeyWeighsOne | flash-attention/flash_attn/flash_attn_triton.py:207-217 | a key of zeros without bias weighs one, a masked key nothing |
| AttentionLaws.BiasMovesOdds | flash-attention/flash_attn/flash_attn_triton.py:193-211 | raising biases by `x` moves the odds of two keys by the exponential of the difference |
| AttentionLaws.BiasReweightsOutput | flash-attention/flash_attn/flash_attn_triton.py:193-211 | so the output becomes the combination with the probabilities times `exp(x)`, up to their new total |
| AttentionLaws.SoftmaxDeterminesRow | flash-attention/flash_attn/flash_attn_triton.py:207-258 | any numbers that vanish on masked keys, add up to one, and stand in the proportion of the exponentials of scaled inner product plus bias, are the probabilities; the output combines the values with them, and they are the exponentials relative to the log-sum-exp |
| AttentionAdjoint.GradientsAreAdjoint | flash-attention/flash_attn/flash_attn_triton.py:363-630 | the closed-form dq, dk, dv are the exact adjoint of the differentiated forward, for every direction and upstream gradient |
| AttentionAdjoint.OutputTangentForm | flash-attention/flash_attn/flash_attn_triton.py:211-258 | the derivative of the softmax output by the quotient rule, written with probabilities only |
| AttentionTangent.ScoreMoves | flash-attention/flash_attn/flash_attn_triton.py:180-211 | a score moves by its tangent and the scaled product of the moves of query and key |
| AttentionTangent.WeightMoves | flash-attention/flash_attn/flash_attn_triton.py:207-211 | to the natural base a weight moves by its own multiple of the move of its score, from below, and by the moved multiple from above |
| AttentionTangent.OutputMoves | flash-attention/flash_attn/flash_attn_triton.py:211-258 | moving queries, keys and values moves the output by its tangent, up to what the tangents of the weights leave out and products of moves |
| OnlineSoftmax.StepInRange | flash-attention/flash_attn/flash_attn_triton.py:211-254 | each p and each rescaling factor lies in [0, 1], `1 <= l_i_new <= width + 1`, `m_i <= lse_i <= m_ij` |
| OnlineSoftmax.StepExact | flash-attention/flash_attn/flash_attn_triton.py:211-252 | an update carrying only (m, lse, acc) takes a state that stands for the keys seen so far to one that stands for the tile too |
| OnlineSoftmax.FinalScale | flash-attention/flash_attn/flash_attn_triton.py:254-258 | rescaling by `exp(m - lse)` turns the accumulator into the softmax average |
| TritonKernel.Kernel.RowHasKey | flash-attention/flash_attn/flash_attn_triton.py:160-161 | every row of a launch with a key has an allowed key |
| TritonKernel.Kernel.ScoreMatches | flash-attention/flash_attn/flash_attn_triton.py:144-216 | for a real query and key the masked, padded score of the kernel is the reference score or minus infinity |
| TritonKernel.Kernel.TailMasked | flash-attention/flash_attn/flash_attn_triton.py:184-186 | columns past the last key carry no weight |
| TritonForward.NextMaxFinite | flash-attention/flash_attn/flash_attn_triton.py:188-215 | on every iteration the new running maximum is finite, so nothing is subtracted from minus infinity |
| TritonForward.RowAfterExact | flash-attention/flash_attn/flash_attn_triton.py:161-252 | after any number of tiles the row state stands for exactly the keys seen |
| TritonForward.IterationsInRange | flash-attention/flash_attn/flash_attn_triton.py:211-254 | on every iteration of every row every quantity is in its range |
| TritonForward.SkippedKeysMasked | flash-attention/flash_attn/flash_attn_triton.py:160-160 | keys skipped by the causal early stop are masked for every row of the block |
| TritonForward.VisitedTileSeen | flash-attention/flash_attn/flash_attn_triton.py:160-160 | and no tile is visited in vain: the last row of the block sees its first key |
| TritonForward.FinishedRow | flash-attention/flash_attn/flash_attn_triton.py:254-284 | after the last tile lse is the log of the sum over the allowed keys and the output is the softmax average |
| TritonForward.FwdRow | flash-attention/flash_attn/flash_attn_triton.py:139-258 | the loop of one row returns the reference log-sum-exp and output |
| TritonForward.StoreRow | flash-attention/flash_attn/flash_attn_triton.py:262-284 | the masked store writes the row and disturbs no other |
| TritonForward.FwdProgram | flash-attention/flash_attn/flash_attn_triton.py:66-284 | one program stores all its rows and leaves finished rows alone |
| TritonForward.FwdKernel | flash-attention/flash_attn/flash_attn_triton.py:66-284 | the launch leaves the reference output and log-sum-exp for every query, any block sizes, bias and causal flag |
| TritonMeaning.StoredRow | flash-attention/flash_attn/flash_attn_triton.py:66-284 | what a stored row is in terms of the tensors alone: the combination of the values with the numbers that vanish behind the query of a causal launch, add up to one, and stand in the proportion of `exp(scale * (q . k) + bias)` |
| TritonMeaning.StoredRowExists | flash-attention/flash_attn/flash_attn_triton.py:66-284 | the probabilities are such numbers |
| TritonMeaning.VectorBiasReweights | flash-attention/flash_attn/flash_attn_triton.py:193-211 | adding `x` to a bias vector multiplies, in the stored row of every query alike, the probabilities by `exp(x)`, up to their new total |
| TritonBackward.Backward.ProbMatches | flash-attention/flash_attn/flash_attn_triton.py:510-548 | recomputed probabilities are the softmax probabilities |
| TritonBackward.Backward.ScoreGradMatches | flash-attention/flash_attn/flash_attn_triton.py:556-577 | recomputed score gradients are the reference ones times the scale |
| TritonBackward.Backward.PaddedRow | flash-attention/flash_attn/flash_attn_triton.py:463-560 | rows past the last query contribute nothing |
| TritonBackward.NoContribution | flash-attention/flash_attn/flash_attn_triton.py:406-410 | row blocks above `begin_m` would have received zero |
| TritonBackward.VisitedRowsSee | flash-attention/flash_attn/flash_attn_triton.py:406-410 | and no row block is visited in vain: its last row sees the first key of the column block |
| TritonBackward.ValueSumMatches | flash-attention/flash_attn/flash_attn_triton.py:549-555 | the sum over visited rows is the reference dv |
| TritonBackward.KeySumMatches | flash-attention/flash_attn/flash_attn_triton.py:578-582 | the sum over visited rows is the reference dk |
| TritonBackward.QuerySumMatches | flash-attention/flash_attn/flash_attn_triton.py:583-625 | the sum over all keys is the reference dq |
| TritonBackward.StoreDkDv | flash-attention/flash_attn/flash_attn_triton.py:332-361 | the masked store of dk and dv |
| TritonBackward.AddDqTile | flash-attention/flash_attn/flash_attn_triton.py:583-625 | the read-modify-write of one dq tile under its masks |
| TritonBackward.BwdOneColBlock | flash-attention/flash_attn/flash_attn_triton.py:363-630 | one column block stores its keys' gradients and adds exactly its contribution to dq |
| TritonBackward.BwdKernelSequential | flash-attention/flash_attn/flash_attn_triton.py:737-773 | run one after another, the column blocks leave the reference dq, dk and dv |
| TritonBackward.AtomicAddsMatch | flash-attention/flash_attn/flash_attn_triton.py:602-625 | in whatever order the atomic adds land, dq ends as the reference gradient, which is also the sequential result |
| TritonBackward.BwdPreprocess | flash-attention/flash_attn/flash_attn_triton.py:287-329 | delta is the row sum of output times upstream gradient, zero on padded rows |
| TritonStepNormalised.StepExact | flash-attention/flash_attn/flash_attn_triton_og.py:72-104 | the update that divides by l in every step keeps the accumulator normalised |
| TritonStepNormalised.FinishedRow | flash-attention/flash_attn/flash_attn_triton_og.py:105-117 | the accumulator already is the output, and `m + log l` the log-sum-exp |
| TritonStepNormalised.FinishedMaximum | flash-attention/flash_attn/flash_attn_triton_og.py:84-91 | m ends as the largest score of the keys that the row sees |
| TritonStepNormalised.FwdRow | flash-attention/flash_attn/flash_attn_triton_og.py:51-117 | a row of the step-normalised kernel returns the maximum m of its visible scores, l, and the reference output |
| TritonStepNormalised.ForwardsAgree | flash-attention/flash_attn/flash_attn_triton_og.py:72-104 | both forward kernels give the same output, and `log l + m` is lse |
| TritonStepNormalised.BwdPreprocess | flash-attention/flash_attn/flash_attn_triton_og.py:133-141 | the preprocess kernel stores `do / l` and its row sums with the output |
| TritonStepNormalised.Backward.RawScoreGradMatches | flash-attention/flash_attn/flash_attn_triton_og.py:212-240 | with `do` divided by l and `p` left undivided the score gradients are the reference ones |
| TritonStepNormalised.Backward.ValueTermsMatch | flash-attention/flash_attn/flash_attn_triton_og.py:212-240 | and so are the value terms |
| TritonStepNormalised.BwdKernel | flash-attention/flash_attn/flash_attn_triton_og.py:189-245 | the backward gives the same dq, dk and dv as the log-sum-exp kernel |
| DualKV.Launch.KeySlot | flash-attention/csrc/flash_attn/src/flash_fwd_kernel_dualkv_training.h:79-97 | a physical slot that is not padding sits at its logical key position |
| DualKV.Launch.SlotLoads | flash-attention/csrc/flash_attn/src/flash_fwd_kernel_dualkv_training.h:316-326 | such a slot loads the row of its logical key |
| DualKV.Launch.SlotWeight | flash-attention/csrc/flash_attn/src/flash_fwd_kernel_dualkv_training.h:334-360 | after both masks a slot carries the reference weight of its key, a padding slot none |
| DualKVTiles.TilesCoverKeys | flash-attention/csrc/flash_attn/src/flash_fwd_kernel_dualkv_training.h:78-80 | context and decoded tiles, padded independently, visit every logical key exactly once |
| DualKVTiles.SkippedTileStart | flash-attention/csrc/flash_attn/src/flash_fwd_kernel_dualkv_training.h:84-98 | tiles past the causal bound start past every key the row block may attend to |
| DualKVTiles.WalkedTileSeen | flash-attention/csrc/flash_attn/src/flash_fwd_kernel_dualkv_training.h:84-98 | and no tile is walked in vain: it begins with a key that the last row of the row block may see |
| DualKVTiles.WalkedTilesSuffice | flash-attention/csrc/flash_attn/src/flash_fwd_kernel_dualkv_training.h:84-98 | the walked tiles carry the whole sum of anything that vanishes on masked keys |
| DualKVForward.SoftmaxRescale | flash-attention/csrc/flash_attn/src/softmax.h:137-168 | the in-place rescaling, with its first-tile and infinite-maximum branches |
| DualKVForward.TileStep | flash-attention/csrc/flash_attn/src/flash_fwd_kernel_dualkv_training.h:374-385 | one tile of the reverse walk keeps what the state stands for, also while everything is masked |
| DualKVForward.NormalizeSoftmaxLse | flash-attention/csrc/flash_attn/src/softmax.h:170-186 | a state that stands for the walked tiles becomes the reference output and log-sum-exp of its row; zeros and infinity where the row sees no key |
| DualKVForward.FwdRow | flash-attention/csrc/flash_attn/src/flash_fwd_kernel_dualkv_training.h:84-440 | the reverse walk yields bottom-right causal attention over context then decoded keys; rows without keys give zeros and infinity |
| DualKVMeaning.RowMeaning | flash-attention/csrc/flash_attn/src/flash_fwd_kernel_dualkv_training.h:84-440 | what a row is in terms of the tensors alone: softmax of scaled inner products with context and decoded keys up to `i + context + decoded - queries` when causal |
| DualKVMeaning.BlindRow | flash-attention/csrc/flash_attn/src/softmax.h:170-186 | a row that sees no key is zero with an infinite log-sum-exp |
| DualKVBackward.Backward.ProbMatches | flash-attention/csrc/flash_attn/src/flash_bwd_kernel_dualkv_training.h:472-503 | recomputed probabilities match, for padding slots and rows without keys too |
| DualKVBackward.Backward.ScoreGradMatches | flash-attention/csrc/flash_attn/src/flash_bwd_kernel_dualkv_training.h:511-530 | recomputed score gradients match |
| DualKVBackward.Backward.SkippedRow | flash-attention/csrc/flash_attn/src/flash_bwd_kernel_dualkv_training.h:134-137 | rows before the first visited block cannot see the tile |
| DualKVBackward.Backward.WalkedRowsSee | flash-attention/csrc/flash_attn/src/flash_bwd_kernel_dualkv_training.h:134-137 | and no row block is walked in vain: its last row may see the first slot of the tile |
| DualKVBackward.ColBlock | flash-attention/csrc/flash_attn/src/flash_bwd_kernel_dualkv_training.h:462-606 | the reverse walk over row blocks accumulates the tile's dk and dv and adds to dq |
| DualKVBackward.AddContext | flash-attention/csrc/flash_attn/src/flash_bwd_kernel_dualkv_training.h:613-638 | the masked atomic adds of a context tile |
| DualKVBackward.StoreDecoded | flash-attention/csrc/flash_attn/src/flash_bwd_kernel_dualkv_training.h:639-695 | the masked store of a decoded tile |
| DualKVBackward.ContextBlocks | flash-attention/csrc/flash_attn/src/flash_bwd_kernel_dualkv_training.h:700-717 | all context tiles of one sequence, one after another |
| DualKVBackward.DecodedBlocks | flash-attention/csrc/flash_attn/src/flash_bwd_kernel_dualkv_training.h:700-717 | all decoded tiles of one sequence, including those with no row blocks, which store zeros |
| DualKVBackward.BwdBatch | flash-attention/csrc/flash_attn/src/flash_bwd_kernel_dualkv_training.h:700-717 | the whole batch, one program after another: packed dq and decoded gradients, accumulated context gradients |
| DualKVBackward.QueryGradient | flash-attention/csrc/flash_attn/src/flash_bwd_kernel_dualkv_training.h:579-585 | every query row ends with its reference gradient |
| DualKVBackward.DecodedRows | flash-attention/csrc/flash_attn/src/flash_bwd_kernel_dualkv_training.h:639-695 | every decoded key ends with the gradient of its own sequence |
| DualKVBackward.ContextIsSum | flash-attention/csrc/flash_attn/src/flash_bwd_kernel_dualkv_training.h:613-638 | a context key ends with the sum of its gradients over all sequences |
| AtomicAdds.LandedIsSum | flash-attention/csrc/flash_attn/src/flash_bwd_kernel_dualkv_training.h:579-585 | a cell ends as the sum of the adds that hit it, whatever their order |
| DualKVAtomicAdds.QueryAddsMatch | flash-attention/csrc/flash_attn/src/flash_bwd_kernel_dualkv_training.h:579-585 | in whatever order the adds of all tiles and sequences land, every scaled query row is its reference gradient |
| DualKVAtomicAdds.ContextAddsMatch | flash-attention/csrc/flash_attn/src/flash_bwd_kernel_dualkv_training.h:613-638 | in whatever order the adds of all tiles and sequences land, a context key ends with the sum of its gradients, the sequential result |
| KernelMeaning.ReferenceIsCausalSegment | flash-attention/flash_attn/flash_attn_interface.py:1748-1752 | the problem the DualKV kernel solves is, row by row, the causal segment over context then own keys that the layouts use |
| KernelMeaning.RunGrid | flash-attention/csrc/flash_attn/src/flash_fwd_kernel_dualkv_training.h:45-46 | the forward grid computes the segment of one sequence |
| PromptSharing.Layer.SoloPrefix | flash-attention/flash_attn/flash_attn_interface.py:1415-1426 | a causal conversation's prefix does not depend on what follows |
| LayerRows.SoloRow | experiments/reproduce_table2.py:109-130 | row t of a conversation is `finish` of the row and the attention of its query over rows `0..t` |
| PromptSharing.Layer.JoinedSegment | flash-attention/flash_attn/flash_attn_interface.py:1415-1426 | attention over context then own keys is the tail of attention over the joined conversation |
| PromptSharing.Layer.Fa2IsSolo | experiments/reproduce_table2.py:109-130 | one layer on packed conversations runs each of them alone |
| LayerRows.Fa2Row | experiments/reproduce_table2.py:109-130 | row `cu[b] + t` is row t of conversation b finished with the attention of its query over that conversation up to itself |
| PromptSharing.Layer.DualKVIsSolo | experiments/reproduce_table2.py:132-163 | one layer with a shared prompt yields the prompt alone, then every response as after its own copy |
| LayerRows.DualKVPromptRow | experiments/reproduce_table2.py:132-163 | a prompt row is finished with the attention of its query over the prompt up to itself |
| LayerRows.DualKVResponseRow | experiments/reproduce_table2.py:132-163 | a response row is finished with the attention of its query over the whole prompt, then its response up to itself |
| PromptSharing.Layer.PrefixGrouperIsSolo | experiments/reproduce_table2.py:165-210 | with a common prefix every padded row is run alone |
| LayerRows.PrefixGrouperRowOf | experiments/reproduce_table2.py:165-210 | with a common prefix a row is finished with the attention of its query over its batch row up to itself |
| LayerRows.PrefixGrouperAnyRow | experiments/reproduce_table2.py:165-210 | whatever the rows, prefix rows get the attention of batch row 0 and suffix rows see its prefix, then their own suffix up to themselves |
| PromptSharing.StackFa2IsSolo | experiments/reproduce_table2.py:109-130 | so for any stack of layers |
| PromptSharing.StackDualKVIsSolo | experiments/reproduce_table2.py:132-163 | so for any stack of layers |
| PromptSharing.StackPrefixGrouperIsSolo | experiments/reproduce_table2.py:165-210 | so for any stack of layers |
| LayerRows.Fa2Stack | experiments/reproduce_table2.py:109-130 | a stack of one layer is that layer's forward, and appended stacks compose |
| LayerRows.DualKVStack | experiments/reproduce_table2.py:132-163 | likewise for the shared prompt |
| LayerRows.PrefixGrouperStack | experiments/reproduce_table2.py:165-210 | likewise for padded rows |
| PromptSharing.DeduplicationPreservesMeaning | experiments/reproduce_table2.py:109-163 | for any number of layers each replica holds the shared prompt's rows and exactly the rows of its response |
| PromptSharing.PrefixGrouperAgrees | experiments/reproduce_table2.py:165-210 | the padded layout agrees with the shared prompt on all rows that are not padding |
| LayoutChecks.PackReplicas | experiments/reproduce_table2.py:375-385 | the loop that packs `[P + R1, P + R2, ...]` and its offsets |
| LayoutChecks.PackShared | experiments/reproduce_table2.py:387-394 | the loop that packs `[P, R1, R2, ...]` and its offsets |
| LayoutChecks.GatherReplicas | experiments/reproduce_table2.py:401-405 | the loop that gathers response rows from the replicas |
| LayoutChecks.GatherShared | experiments/reproduce_table2.py:406-409 | the loop that gathers response rows behind the shared prompt |
| LayoutChecks.CheckCorrectness | experiments/reproduce_table2.py:358-417 | the compared rows are equal, and are what every conversation on its own produces |
| LayoutChecks.FoldedOffsets | experiments/reproduce_table1.py:89-93 | the in-place loop that fills `cu_q` |
| LayoutChecks.FoldedSegment | experiments/reproduce_table1.py:170-186 | the prompt's queries belong to the first sequence, the others drop them |
| LayoutChecks.FoldedQueriesAgree | experiments/reproduce_table1.py:127-194 | past the prompt the folded layout lists the attention rows of the replicated layout |
| BlockRanges.BlockMN.AllowedKeys | flash-attention/hopper/mask.h:95-126 | the mask without sinks: keys up to the diagonal, or within the window around it and the chunk of the query |
| BlockRanges.BlockMN.QueryMajorCovers | flash-attention/hopper/block.h:12-46 | every pair allowed by the causal, local, chunked or packed mask is in a visited block |
| BlockRanges.BlockMN.PackedQuery | flash-attention/hopper/block.h:25-31 | the packed indices of a query are the `qheadPerKhead` consecutive ones from `query * qheadPerKhead` on |
| BlockRanges.BlockMN.LastBlockNeeded | flash-attention/hopper/block.h:23-34 | the range ends no later than needed: its last key block holds an allowed pair of a query of the block |
| BlockRanges.BlockMN.FirstBlockNeeded | flash-attention/hopper/block.h:35-45 | the range begins no earlier than needed: its first key block holds an allowed pair of a query of the block |
| BlockRanges.BlockMN.SinksVisitedIff | flash-attention/hopper/block.h:35-45 | with sink tokens every allowed pair is visited exactly when the window of the first query (clipped to its chunk) begins before the end of the first key block |
| BlockRanges.SinkNotVisited | flash-attention/hopper/mask.h:106-122 | an allowed pair that the walk leaves out once there are sink tokens |
| BlockRanges.BlockMN.KeyMajorCovers | flash-attention/hopper/block.h:81-101 | every pair is in a row block visited by its key block, without chunks or packed heads, sinks included |
| BlockRanges.BlockMN.FirstRowBlockNeeded | flash-attention/hopper/block.h:96-99 | for a block that holds keys the first visited row block holds an allowed pair, sinks included |
| BlockRanges.BlockMN.LastRowBlockNeeded | flash-attention/hopper/block.h:90-95 | and so does the last visited row block |
| BlockRanges.NegativeWindowLosesRows | flash-attention/hopper/block.h:96-99 | with a right window of -1 a causal launch would lose a row |
| BlockRanges.BlockMN.UnmaskedIterationsSafe | flash-attention/hopper/block.h:103-135 | between the two bounds every key below the end is allowed for every row, packed heads and chunks included |
| BlockRanges.BlockMN.MaskedIterationsNeeded | flash-attention/hopper/block.h:103-135 | without chunks the bounds are conservative by at most one block |
| BlockRanges.BlockMN.SplitsPartition | flash-attention/hopper/block.h:47-58 | each visited block belongs to exactly one split, for the static or the dynamic count; late splits are empty |
| BlockRanges.BlockMN.SplitsInOrder | flash-attention/hopper/block.h:52-56 | every block of an earlier split lies below every block of a later one |
| BlockRanges.BlockMN.SplitsBalanced | flash-attention/hopper/block.h:52-54 | no split exceeds an even share, rounded up |
| BlockRanges.SplitWordFields | flash-attention/hopper/block.h:48-51 | index and dynamic count are recovered from the 32-bit word |
| BlockRanges.SplitWordBits | flash-attention/hopper/block.h:48-51 | the low 16 bits of the word are the split and the high 16 bits the dynamic count, also in a negative word |
| BlockRanges.BlockMN.NewKBlocksExact | flash-attention/hopper/block.h:70-78 | the appended blocks are exactly those holding an appended key of the range |
| BlockRanges.BlockMN.NewKeysCovered | flash-attention/hopper/block.h:70-78 | every appended key the walk reaches is appended by some split |
| CxxArithmetic.CeilDivBounds | flash-attention/hopper/block.h:23-33 | what truncating ceiling division guarantees for any sign |
| CxxArithmetic.TruncDivBounds | flash-attention/hopper/block.h:44-44 | what truncating division guarantees for any sign |
| CxxArithmetic.DivFloorBounds | flash-attention/hopper/utils.h:103-107 | `div_floor` is the floor on all integers |
| CxxArithmetic.RoundDownMonotone | flash-attention/hopper/utils.h:109-117 | rounding to chunks is monotone, and how the two roundings relate |
| WindowParams.LaunchParams.SetParamsFprop | flash-attention/hopper/flash_api.cpp:146-160 | the stored causal flag, local flag, window and chunk |
| WindowParams.LaunchParams.MhaFwd | flash-attention/hopper/flash_api.cpp:792-805 | the forward rewriting keeps the mask of every sequence no longer than the maxima |
| WindowParams.LaunchParams.MhaBwd | flash-attention/hopper/flash_api.cpp:1359-1365 | so does the backward rewriting, and its local flags are the stored ones |
| WindowParams.SchedulerMetadata | flash-attention/hopper/flash_api.cpp:576-597 | the planning copy stores what the forward stores |
| WindowParams.ForwardIsFaithful | flash-attention/hopper/flash_api.cpp:792-805 | the forward form denotes the requested pairs, including one-query causal and clipped chunks |
| WindowParams.BackwardIsFaithful | flash-attention/hopper/flash_api.cpp:1359-1365 | the backward form denotes the requested pairs |
| WindowParams.ForwardFlags | flash-attention/hopper/flash_api.cpp:792-805 | when exactly the forward stores the causal and the local flag |
| WindowParams.BackwardFlags | flash-attention/hopper/flash_api.cpp:1359-1365 | when exactly the backward stores the causal and the local flag |
| WindowParams.FlagsMeanTheMask | flash-attention/hopper/flash_api.cpp:146-160 | a causal flag is stored only for masks that are exactly the diagonal, no flag only for full ones |
| WindowParams.StoredWindows | flash-attention/hopper/flash_api.cpp:146-160 | stored windows reach no further than the longest sequence and the chunk, and shorter ones are kept |
| WindowParams.ForwardVisitsRequest | flash-attention/hopper/block.h:12-46 | every pair a forward request allows is visited |
| WindowParams.BackwardVisitsRequest | flash-attention/hopper/block.h:81-101 | every pair a backward request allows is visited |
| RingPipeline.Ring.ProducerPhase | flash-attention/AI/racecheck_repro_1d_bulk.py:41-48 | the producer's wait passes exactly when the stage's previous block has been released |
| RingPipeline.Ring.ConsumerPhase | flash-attention/AI/racecheck_repro_1d_bulk.py:51-53 | a lane's wait passes exactly when its block, and no earlier one, is in the stage |
| RingPipeline.Ring.StepKeeps | flash-attention/AI/racecheck_repro_1d_bulk.py:40-59 | every step of producer, copy engine or lane keeps the invariant |
| RingPipeline.Ring.RunKeeps | flash-attention/AI/racecheck_repro_1d_bulk.py:40-59 | so does every run |
| RingPipeline.Ring.ReadsItsBlock | flash-attention/AI/racecheck_repro_1d_bulk.py:54-55 | a reading lane finds the element of its own block |
| RingPipeline.Ring.NeverOverwritesUnread | flash-attention/AI/racecheck_repro_1d_bulk.py:43-58 | no stage is overwritten while a lane has an unread element, and none is read while a copy is landing |
| RingPipeline.Ring.RunsNeverOverwrite | flash-attention/AI/racecheck_repro_1d_bulk.py:40-59 | the same for every reachable state |
| RingPipeline.Ring.Progress | flash-attention/AI/racecheck_repro_1d_bulk.py:40-59 | no state short of completion is stuck |
| RingPipeline.Ring.FinishedCopies | flash-attention/AI/racecheck_repro_1d_bulk.py:54-55 | a finished run has copied everything and left nothing in flight |
| RingPipeline.Ring.RunCounts | flash-attention/AI/racecheck_repro_1d_bulk.py:40-59 | every step is one step less to take, so runs are finite |
| RingPipeline.Ring.RunsEndCopied | flash-attention/AI/racecheck_repro_1d_bulk.py:40-73 | whatever the interleaving, a run that cannot go on has copied the source, after a fixed number of steps |
| GqaSemaphore.Launch.SemaphoresInjective | flash-attention/hopper/flash_api.cpp:1539-1545 | different slots have different semaphores, all within the allocation |
| GqaSemaphore.Launch.CtaCoordinates | flash-attention/hopper/epilogue_bwd.hpp:426-428 | a query head determines its key head, the one with `headKv * groupSize <= head < (headKv + 1) * groupSize`, and its index in the group, and conversely |
| GqaSemaphore.Launch.LargerHeadWaitsLonger | flash-attention/hopper/epilogue_bwd.hpp:426-428 | of two heads of a group the larger has the larger index |
| GqaSemaphore.Launch.StepKeeps | flash-attention/hopper/epilogue_bwd.hpp:463-511 | every wait, element update and arrival keeps all slots equal to folds in head order |
| GqaSemaphore.Launch.RunKeeps | flash-attention/hopper/epilogue_bwd.hpp:463-511 | so does every run |
| GqaSemaphore.Launch.NoOverlap | flash-attention/hopper/epilogue_bwd.hpp:463-511 | updates of a slot never overlap |
| GqaSemaphore.Launch.Progress | flash-attention/hopper/epilogue_bwd.hpp:463-511 | a group that is not done has a CTA that can take a step |
| GqaSemaphore.Launch.RunCounts | flash-attention/hopper/epilogue_bwd.hpp:463-511 | every action is one step less to take |
| GqaSemaphore.Launch.RunsEnd | flash-attention/hopper/epilogue_bwd.hpp:463-511 | no run has more than `2 (elements + 2)` steps per CTA, and a run cannot go on exactly when it has taken them all |
| GqaSemaphore.Launch.RunsAreDeterministic | flash-attention/hopper/epilogue_bwd.hpp:415-515 | under any interleaving each slot of dV and dK ends with the contributions of query heads `headKv * groupSize + i`, added in ascending order of i, for any addition |
| GqaSemaphore.Launch.TwoHeads | flash-attention/hopper/epilogue_bwd.hpp:415-515 | with two heads per group the slot holds `add(add(zero, c0), c1)` of heads `2 * headKv` and `2 * headKv + 1` |
| GqaSemaphore.Launch.ValuesBeforeKeys | flash-attention/hopper/epilogue_bwd.hpp:463-511 | a CTA begins with dK only after it has passed dV |
| StableSorting.StableSort | flash-attention/flash_attn/flash_blocksparse_attn_interface.py:24-35 | a stable sort by key, ties in index order |
| BlockMask.ArgsortInverts | flash-attention/flash_attn/flash_blocksparse_attn_interface.py:25-26 | sorting the sorted indices inverts the permutation |
| BlockMask.FlagsFound | flash-attention/flash_attn/flash_blocksparse_attn_interface.py:27-34 | for a nonzero block the sorts find the row's last and first nonzero column |
| BlockMask.EntryBits | flash-attention/flash_attn/flash_blocksparse_attn_interface.py:14-18 | an entry is four times its row, with the lowest bit set for the first nonzero of the row and the second for the last |
| BlockMask.CellsDistinct | flash-attention/flash_attn/flash_blocksparse_attn_interface.py:36-37 | the indexed updates hit distinct cells |
| BlockMask.AddAt | flash-attention/flash_attn/flash_blocksparse_attn_interface.py:36-37 | `t[rows, cols] += v` as gather, add and scatter |
| BlockMask.EraseZeros | flash-attention/flash_attn/flash_blocksparse_attn_interface.py:38-38 | cells of zero blocks become -1, so rows of zeros leave no trace |
| BlockMask.ConvertBlockmask | flash-attention/flash_attn/flash_blocksparse_attn_interface.py:7-39 | each output column lists exactly its nonzero rows in ascending order with exact flags, then only -1, and decodes to the mask |
| BlockMask.DecodeInverts | flash-attention/flash_attn/flash_blocksparse_attn_interface.py:14-18 | decoding any correct encoding returns the mask |
| BlockMask.EncodingUnique | flash-attention/flash_attn/flash_blocksparse_attn_interface.py:14-18 | a mask has only one encoding |
| BertPadding.IndexPut | flash-attention/flash_attn/bert_padding.py:44-53 | overwriting zeros at the given rows, in place |
| BertPadding.ScatterAdd | flash-attention/flash_attn/bert_padding.py:82-92 | adding into the residual gradient, in place |
| BertPadding.GatherAdjoint | flash-attention/flash_attn/bert_padding.py:10-35 | the overwriting backward is the adjoint of the gather for distinct indices |
| BertPadding.PutAdjoint | flash-attention/flash_attn/bert_padding.py:43-61 | the gather is the adjoint of the put |
| BertPadding.ResidualAdjoint | flash-attention/flash_attn/bert_padding.py:69-92 | the residual backward is the adjoint even with repeated indices |
| BertPadding.OverwriteNeedsDistinct | flash-attention/flash_attn/bert_padding.py:22-35 | the overwriting backward is the adjoint of the gather, for all inputs and gradients, exactly when no index is repeated |
| BertPadding.OverwriteLoses | flash-attention/flash_attn/bert_padding.py:22-35 | a row gathered twice with gradient one each time is left with gradient one instead of two |
| BertPadding.PadUnpad | flash-attention/flash_attn/bert_padding.py:98-128 | padding after unpadding gives the input with the tokens zeroed that neither mask selects |
| BertPadding.UnpadPad | flash-attention/flash_attn/bert_padding.py:204-218 | unpadding after padding is the identity |
| BertPadding.SegmentsAreRows | flash-attention/flash_attn/bert_padding.py:111-116 | for 0-1 masks segment b is exactly the selection of batch row b |
| BertPadding.SegmentsMatchIff | flash-attention/flash_attn/bert_padding.py:109-128 | for 0-1 masks `cu_seqlens` delimits the batch rows among the indices exactly when no token is selected by both masks |
| BertPadding.SummedSegmentsMatchIff | flash-attention/flash_attn/bert_padding.py:110-114 | for any integer masks: the segments are the rows exactly when no summed entry exceeds one |
| BertPadding.BothMasksMiscount | flash-attention/flash_attn/bert_padding.py:109-128 | a token selected by both masks: one index, and an offset of two |
| BertPadding.SegmentsBeyondUsed | flash-attention/flash_attn/bert_padding.py:109-128 | `seqused` counts the attention mask alone: a segment is longer by the unused tokens of its row, and as long exactly when there are none |
| BertPadding.LongestSegment | flash-attention/flash_attn/bert_padding.py:109-128 | `max_seqlen` is the length of the longest segment |
| BertPadding.SegmentIsRun | flash-attention/flash_attn/bert_padding.py:183-201 | when the samples fit, each segment holds the contiguous tokens of its batch row that start where the row's earlier samples end |
| BertPadding.CuOfSample | flash-attention/flash_attn/bert_padding.py:186-190 | the offset of a sample counts the rows and samples before it |
| BertPadding.OffsetsEndIff | flash-attention/flash_attn/bert_padding.py:183-190 | without any sample there is no result; else the last offset equals the number of indices exactly when every row's samples fit |
| BertPadding.LongestSample | flash-attention/flash_attn/bert_padding.py:183-190 | `max_seqlen` is the length of the longest sample |
| BertPadding.OverfullRow | flash-attention/flash_attn/bert_padding.py:183-190 | a sample of two tokens in a row of one: one index, and an offset of two |
| NormalizeLengths.ScaledTotal | flash-attention/benchmarks/clc_bench.py:175-175 | the quotas share out the whole budget |
| NormalizeLengths.Leftover | flash-attention/benchmarks/clc_bench.py:176-177 | the floors leave between zero and one token per sequence |
| NormalizeLengths.WalkApproaches | flash-attention/benchmarks/clc_bench.py:183-192 | while something can be taken the cyclic walk gets nearer to it with every skip |
| NormalizeLengths.Repair | flash-attention/benchmarks/clc_bench.py:183-193 | the repair loop ends with all lengths at least one and the exact sum, or fails on an empty order; each entry has moved by its number of turns in a cyclic walk, stopping at one when tokens are taken back |
| NormalizeLengths.WalkedInTurn | flash-attention/benchmarks/clc_bench.py:178-192 | so of two entries the earlier in the order has moved as far as the later or one further, unless it is down to one: largest fractions first to hand out, smallest first to take back, ties by index |
| NormalizeLengths.HandedOutIsApportionment | flash-attention/benchmarks/clc_bench.py:178-182 | handing out in the order of fractions gives the largest remainders |
| NormalizeLengths.Normalize | flash-attention/benchmarks/clc_bench.py:172-193 | errors exactly as the source raises them; else lengths at least one and the exact sum; tokens handed out or taken back in turn in the order of fractions whatever the quotas; floor or floor + 1 by largest remainder when every quota is at least one |
| PadToTarget.Search | experiments/generate_padded_data.py:51-59 | the binary search ends at a crossing of the target, without any monotonicity |
| PadToTarget.ShortPrompt | experiments/generate_padded_data.py:46-49 | a prompt below the target is continued with the announcement and 500 passages more than it lacks tokens |
| PadToTarget.PaddingReaches | experiments/generate_padded_data.py:44-49 | where every passage costs a token, the searched text reaches the target, with 500 to spare if it was padded |
| PadToTarget.WalkBack | experiments/generate_padded_data.py:67-75 | takes the first of 99 steps back whose text fits, with slices that count from the end below zero; otherwise leaves the text as it was |
| PadToTarget.TokenFixup | experiments/generate_padded_data.py:77-90 | keeps as many content tokens as the target leaves beside the empty prompt's and decodes them; none if there is no room |
| PadToTarget.LastResort | experiments/generate_padded_data.py:92-98 | accepts the first of 199 shorter prefixes that fits, else keeps the text |
| PadToTarget.PadToTarget | experiments/generate_padded_data.py:43-100 | never overshoots, and never repairs, if the empty prompt fits; for monotone counts that is the exact condition for not overshooting; exact for unit steps if the searched text reaches the target, as it does where passages cost a token each; for monotone counts exact if and only if some prefix is; and which text results in every case |
| PadToTarget.CrossingCases | experiments/generate_padded_data.py:61-65 | what a crossing says about the count there |
| PadToTarget.NeverExact | experiments/generate_padded_data.py:8-9 | a monotone tokenizer for which no prefix is exact |

## Left out

- Rounding, number formats and casts, including the multiplication by `log2(e)` behind `exp2`: all values are
  real numbers. The order of additions is kept only where it is the point, in `GqaSemaphore`.
- Dropout, its random numbers, softcap and ALiBi.
- Strides, swizzles, shared memory copies and register layouts of the attention kernels, and the
  stores and reloads that work around compiler problems.
- Batch and head indexing of the attention kernels: one value of a launch type is one sequence and one head.
  The sum over the query heads of a key head outside `GqaSemaphore`, and the deterministic split of dq, are
  not modelled.
- The conversion of the accumulated context gradients of the DualKV backward to the output type.
- BlockRanges.BlockMN.Allowed: counts sink keys from the start of the sequence; the forward mask
  (flash-attention/hopper/mask.h:106) compares its sink limit with a column counted from the thread's own first
  column. Without sink tokens the two agree.
- BlockRanges.BlockMN.LastBlockNeeded: asks for windows that are not negative where they are local, as its three
  neighbours do; a negative window can leave a block without an allowed pair.
- The FA2 CUDA kernels behind `flash_attn_varlen_func` and `flash_attn_func`: the layouts use their documented
  bottom-right causal meaning.
- Gradients of the layouts: the equality of layouts is proved for the forward pass. What the backward pass of
  the shared prompt does is proved for the DualKV kernel itself.
- The tile scheduler, the combine kernel, head-dimension dispatch and feature flags.
- TritonForward.FwdKernel: needs at least one key and a positive scale; without a key the source subtracts minus
  infinity from itself, and a negative scale turns its maximum into a minimum. So do the other kernels' lemmas
  need a positive scale.
- TritonStepNormalised.FwdRow: covers the causal launches with equal lengths that are multiples of equal block
  sizes, which is what that kernel's wrapper asserts or assumes.
- BlockRanges.BlockMN.KeyMajorCovers: chunks and packed heads are excluded, as the code itself says it does not
  support them there.
- BlockRanges.BlockMN.MaskedIterationsNeeded: excludes chunks, where the bounds can be conservative by more.
- The narrowing of 64-bit window arguments to 32 bits in the host code, and overflow of 32-bit products.
- The producer tail of the ring, which only waits for the last releases before the block exits, and the memory
  model below the barriers: a copied element becomes visible when it lands.
- Which CTAs are resident: in `GqaSemaphore` every CTA of the grid can take its steps. Key blocks that no query
  block visits skip the epilogue for all heads of their group alike, so they have no steps to model.
- The varlen offsets that place a slot in the gradient buffers; slots are named by their coordinates.
- Feature columns of `bert_padding`: the adjoint lemmas speak of one column, the others of whole token rows.
- Float weights in `normalize_lengths`: quotas are exact.
- `attended_pairs`, memory prediction, benchmark timing, plots, dataset preprocessing, reward functions and
  training drivers: closed formulas, input and output, or thin wrappers.
