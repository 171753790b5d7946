# What this project proves

These Dafny modules model the integer cores that the client rests on: the Opus entropy coder and the
codings built on it (`3rdparty/opus-1.1.1/celt`), the intrusive data structures, thread pool and address
routines of libuv (`3rdparty/libuv-v1.8.0`), and the client's own OCB2 packet encryption
(`lib/mumble/ocb_aes.c`). `dafny verify dfyconfig.toml` checks all of them.

**Range coder** (sections 4.1 and 5.1 of RFC 6716). `RangeIntervals`, `RangeModels` and `RawBits` say what the
stream means: an exact interval of unbounded integers, and raw bits read from the other end. `RangeCarry` shows
that the bytes written, `rem`, the run of `ext` symbols and `val` always denote the low end of that interval, and
`RangeFinish` that whatever follows the last byte stays inside it; `RangeShortest` shows that no shorter ending would
do. `RangeEncoder` and `RangeDecoder` are the classes with the fields of `ec_ctx`; the decoder is proved on arbitrary
packets. `RangeTranscripts` and `RangeRoundTrip` compose whole runs, which the codings below reuse: `Laplace*`, `Pulse*`
and `SideCoding` (PVQ and the split angle, with `ThetaPdf`), `Log2Frac`, `TfCoding` and `TfSearch`, `EnergyModel`, `CoarseEnergy`,
`EnergyLockstep`, `EnergyCoder` and `EnergyPasses` (which codes a frame twice into one buffer and keeps one of the
passes, by the price `TellFrac` puts on them; `EnergyQuality` bounds the errors it leaves), and the bit allocator in
`BitBudget`, `BitSkip`, `BitSplit`, `BitAllocation` and `BitFinish`, with what its choices are good for in `BitShape`.
Where what is sent depends on the bits left, a function gives the plan of one side and both the encoding and the
decoding loops are proved to follow it.

**Pointer structures.** `RbPointers`, `RbInsert`, `RbRemove` and `RbOrder` mutate linked nodes with parent pointers;
`RbShapes` holds the trees they stand for, seen from the place a loop has got to. `SplayTrees` takes a tree apart into
two chains and assembles it again, and `SplayBalance` proves the Balance Theorem the header claims for it. In
both kinds of tree the mirror-image branches of the macros are one branch told apart by a side (`Sides`). `PointerHeap`
numbers the nodes of the heap so that the bits of a number spell the path to it. `QueueRing` is the ring of `queue.h`.

**Thread pool.** `ThreadPool` is a state machine: any number of workers and event loops, the global queue and lock, a
queue and a lock for each loop, the condition variable, cancellation and the exit message. Taking a lock is a step of
its own, and any thread may take the next step. `ThreadPoolSafety` proves an invariant of every step and the promises
about each request; `ThreadPoolProgress` proves that work is never left to sleeping workers, that locks do not
deadlock, and that the pool comes to rest with everything delivered; `PoolOrder` that work starts in the order it was
posted and is delivered in the order it finished. `PoolQueues` says what each step does to the queues,
and `PoolRings` joins the protocol to the rings: a class with the heads and the link of each request, whose methods are
the ring operations of the source, refines every step, the test of `QUEUE_EMPTY` on a request's own link included.

**Addresses and packets.** `InetText` specifies printing and parsing and proves the round trip; `InetShape` says what
printed texts look like, `InetGrammar` which texts are parsed, and `Inet` is the code with its buffers and cursors.
`BlockMath`, `Ocb2` and `Ocb2Code` do the same for OCB2 around any block cipher, and `Ocb2Tags` says what it seals.

## Where the code and its descriptions disagree

- Coarse energy: a decoder is meant to follow the encoder's energies for every input. With exactly one bit left in
  the first band the encoder keeps a delta below -1 while one bit is sent, and the decoder hears -1
  (`3rdparty/opus-1.1.1/celt/quant_bands.c:239-242`). `EnergyLockstep` gives an input, shows that a coder state with
  one bit left exists, and proves that the energies agree if and only if this guard is not met, which 20 bits left before
  the frame ensure.
- The comment at `3rdparty/opus-1.1.1/celt/cwrs.c:195` gives other base cases for U than the first row of the table
  holds; the table is followed.
- OCB2 decryption puts the ciphertext of a partial last block into its checksum
  (`lib/mumble/ocb_aes.c:107`, `lib/mumble/ocb_aes.c:285`), so the two tags need not agree there;
  `Ocb2.TagsAgree` says exactly when they do. Recovery of the plaintext is not affected.
- `heap_remove` checks whether the unlinked node was the root after the link to it has been cleared
  (`3rdparty/libuv-v1.8.0/src/heap-inl.h:189-191`); the check never succeeds.
- The printer's test for a run of seven words before an embedded IPv4 address
  (`3rdparty/libuv-v1.8.0/src/inet.c:131`) is never reached, because word 6 lies inside such a run.
- `SPLAY_REMOVE` returns its argument, which need not be the node with an equal key that it took out
  (`3rdparty/libuv-v1.8.0/include/tree.h:204`).

## Model

| member | source | states |
|---|---|---|
| `RangeIntervals.FrequencyFindsSlot` | 3rdparty/opus-1.1.1/celt/entdec.c:139-160 | the frequency the decoder computes points at a slot if and only if the interval the encoder took for that slot holds the code |
| `RangeIntervals.StepHolds` | 3rdparty/opus-1.1.1/celt/entenc.c:128-137 | coding a symbol shrinks the interval to codes whose frequency points at that symbol, through renormalisation, both directions |
| `RangeIntervals.SlotDistance` | 3rdparty/opus-1.1.1/celt/entdec.c:153-160 | the registers of ec_dec_update after a slot are the distance from the top of the narrowed interval and its width |
| `RangeCarry.ReleasedValue` | 3rdparty/opus-1.1.1/celt/entenc.c:82-98 | the bytes released after a run of 0xFF spell the exact number plus the carry |
| `RangeCarry.CarryValue` | 3rdparty/opus-1.1.1/celt/entenc.c:82-98 | one symbol more turns the exact output number into 256 times it plus the symbol, carry or not |
| `RangeCarry.CarryHasRoom` | 3rdparty/opus-1.1.1/celt/entenc.c:82-98 | a deferred carry always finds a byte below 0xFF, so it never overflows one |
| `RangeCarry.ShiftDenotes` | 3rdparty/opus-1.1.1/celt/entenc.c:101-110 | shifting out the top symbol keeps written bytes, rem, ext and val together equal to the low end of the exact interval |
| `RangeFinish.FinalChoice` | 3rdparty/opus-1.1.1/celt/entenc.c:244-262 | the value chosen at the end is a multiple of the bits left out, and all codes that share its leading bits lie in [val, val + rng) |
| `RangeFinish.FinishedHolds` | 3rdparty/opus-1.1.1/celt/entenc.c:263-270 | whatever fills the spare bits and follows the emitted bytes, the packet lies in the final interval |
| `RangeFinish.FinishedCarries` | 3rdparty/opus-1.1.1/celt/entenc.c:272-292 | the raw bits at the back of the packet are the ones written, the last few sharing a byte |
| `RangeFinish.PackedDecodes` | 3rdparty/opus-1.1.1/celt/entenc.c:244-293 | front bytes, back bytes and the shared byte together hold the interval and carry the raw bits |
| `RangeFinish.TellCoversEnd` | 3rdparty/opus-1.1.1/celt/entcode.h:106-113 | ec_tell never undercounts the finished packet and overcounts it by at most one bit |
| `RangeShortest.EndingShortest` | 3rdparty/opus-1.1.1/celt/entenc.c:250-258 | no fewer bits would do: with fewer, every multiple of the bits left out and its extensions leave the interval |
| `RangeShortest.RunEndsShortest` | 3rdparty/opus-1.1.1/celt/entenc.c:244-262 | a whole run can be settled by so many bits, raw bits included, if and only if they are at least those the encoder needs |
| `RangeFinish.FinalBitsPeriodic` | 3rdparty/opus-1.1.1/celt/entenc.c:246-262 | the pending carry bit does not change how many bits end the stream |
| `RangeModels.UintSplit` | 3rdparty/opus-1.1.1/celt/entenc.c:175-191 | a uniform value splits into a head below 256 and at most 24 raw bits |
| `RawBits.PushField` | 3rdparty/opus-1.1.1/celt/entenc.c:193-212 | a field pushed into the window is appended to the raw bits written so far |
| `RawBits.ConsumeField` | 3rdparty/opus-1.1.1/celt/entdec.c:225-245 | the low bits of the decoder window are the field of the packet at the read position |
| `RawBits.FieldSurvives` | 3rdparty/opus-1.1.1/celt/entenc.c:193-212 | a packet that carries the raw bits after a field carries those before it, and the field itself where it was written |
| `RangeEncoder.Encoder.WriteByte` | 3rdparty/opus-1.1.1/celt/entenc.c:60-64 | stores a byte at the front or records the error when the two ends meet |
| `RangeEncoder.Encoder.WriteByteAtEnd` | 3rdparty/opus-1.1.1/celt/entenc.c:66-70 | the same from the back of the buffer |
| `RangeEncoder.Encoder.CarryOut` | 3rdparty/opus-1.1.1/celt/entenc.c:82-98 | takes one nine-bit symbol: the pending state becomes the one with the carry resolved |
| `RangeEncoder.Encoder.Normalize` | 3rdparty/opus-1.1.1/celt/entenc.c:101-110 | renormalises to the exact rescaled interval and counts eight bits a turn |
| `RangeEncoder.Encoder.Encode` | 3rdparty/opus-1.1.1/celt/entenc.c:128-137 | ec_encode narrows the exact interval to the symbol's slot |
| `RangeEncoder.Encoder.EncodeBin` | 3rdparty/opus-1.1.1/celt/entenc.c:139-148 | the same for a total that is a power of two |
| `RangeEncoder.Encoder.EncodeBitLogp` | 3rdparty/opus-1.1.1/celt/entenc.c:151-162 | the same for one binary symbol |
| `RangeEncoder.Encoder.EncodeIcdf` | 3rdparty/opus-1.1.1/celt/entenc.c:164-173 | the same for an inverse cumulative table |
| `RangeEncoder.Encoder.EncodeUint` | 3rdparty/opus-1.1.1/celt/entenc.c:175-191 | a uniform value: the head narrows the interval, the low bits join the raw bits |
| `RangeEncoder.Encoder.EncodeBits` | 3rdparty/opus-1.1.1/celt/entenc.c:193-212 | raw bits are appended exactly |
| `RangeEncoder.Encoder.Shrink` | 3rdparty/opus-1.1.1/celt/entenc.c:237-242 | the back bytes move forward and the coder state still denotes the same stream |
| `RangeEncoder.Encoder.Done` | 3rdparty/opus-1.1.1/celt/entenc.c:244-293 | error stays 0 if and only if the bits needed, which are the fewest that settle the interval, fit the buffer, and then the packet holds the final interval and carries the raw bits |
| `RangeEncoder.Encoder.Restore` | 3rdparty/opus-1.1.1/celt/quant_bands.c:333 | assigning a copy of the registers back gives the encoder as it was copied, whatever was range-coded since |
| `RangeEncoder.Encoder.RestoreWith` | 3rdparty/opus-1.1.1/celt/quant_bands.c:340-342 | the same for a later copy once the bytes it had written are put back |
| `RangeEncoder.RegisterIsLow` | 3rdparty/opus-1.1.1/celt/entenc.c:82-110 | the register is the low end of the exact interval modulo the carry still pending |
| `RangeDecoder.Decoder.Normalize` | 3rdparty/opus-1.1.1/celt/entdec.c:102-117 | keeps the distance from the top of the interval while reading one byte a turn |
| `RangeDecoder.Decoder.Decode` | 3rdparty/opus-1.1.1/celt/entdec.c:139-144 | returns the frequency of the code, for any packet |
| `RangeDecoder.Decoder.DecodeBin` | 3rdparty/opus-1.1.1/celt/entdec.c:146-150 | the same for a total that is a power of two |
| `RangeDecoder.Decoder.Update` | 3rdparty/opus-1.1.1/celt/entdec.c:153-160 | takes the slot the frequency fell in and steps the interval as the encoder did |
| `RangeDecoder.Decoder.DecodeBitLogp` | 3rdparty/opus-1.1.1/celt/entdec.c:162-175 | returns the bit the code points at and steps the interval |
| `RangeDecoder.Decoder.DecodeIcdf` | 3rdparty/opus-1.1.1/celt/entdec.c:177-196 | returns the symbol the code points at and steps the interval |
| `RangeDecoder.Decoder.DecodeUint` | 3rdparty/opus-1.1.1/celt/entdec.c:198-223 | returns head and raw bits joined, or the largest value and the error flag when a damaged packet joins to too much |
| `RangeDecoder.Decoder.DecodeBits` | 3rdparty/opus-1.1.1/celt/entdec.c:225-245 | returns the raw field at the read position, zeros past the end |
| `RangeTranscripts.ReadsUnique` | 3rdparty/opus-1.1.1/celt/entdec.c:139-245 | a decoder state reads at most one value under one model |
| `RangeTranscripts.PrefixConveys` | 3rdparty/opus-1.1.1/celt/entenc.c:128-293 | a packet that conveys a whole run conveys every prefix of it and reads back every value |
| `RangeTranscripts.UniquelyDecodable` | 3rdparty/opus-1.1.1/celt/entdec.c:119-245 | one packet conveys at most one message under given models |
| `RangeRoundTrip.EncodeItem` | 3rdparty/opus-1.1.1/celt/entenc.c:128-212 | each kind of symbol advances the exact state by its model and value |
| `RangeRoundTrip.EncodeLaplace` | 3rdparty/opus-1.1.1/celt/laplace.c:51-92 | codes and reports the nearest value that has a place in the table |
| `RangeRoundTrip.DecodeItem` | 3rdparty/opus-1.1.1/celt/entdec.c:139-245 | each kind of symbol is decoded to the value the packet holds, leaving the encoder's state |
| `RangeRoundTrip.EncodeAll` | 3rdparty/opus-1.1.1/celt/entenc.c:112-212 | a whole run of symbols, with ec_tell after each |
| `RangeRoundTrip.DecodeAll` | 3rdparty/opus-1.1.1/celt/entdec.c:119-245 | a whole run decodes to the same values with the same ec_tell after each, and no error is reported |
| `RangeRoundTrip.RoundTrip` | 3rdparty/opus-1.1.1/celt/entenc.c:112-293 | for any mix of symbols and any buffer size: success is exactly that the bits fit, ec_tell within the buffer suffices, and decoding then returns the same values and the same ec_tell throughout, without error |
| `Laplace.BlocksOrdered` | 3rdparty/opus-1.1.1/celt/laplace.c:51-92 | shares of larger magnitudes lie further out |
| `Laplace.SharesDisjoint` | 3rdparty/opus-1.1.1/celt/laplace.c:51-92 | no unit of the 32768 belongs to two values, and no share is empty |
| `Laplace.DecayPotential` | 3rdparty/opus-1.1.1/celt/laplace.c:44-49 | fl plus what a geometric tail would still add grows by at most two units a step |
| `LaplaceTail.FitsWhenWithin` | 3rdparty/opus-1.1.1/celt/laplace.c:44-92 | when the decaying shares exceed the geometric bound by at most 30 units, the flat tail still fits |
| `LaplaceWindows.TailAlwaysFits` | 3rdparty/opus-1.1.1/celt/laplace.c:36-92 | for every probability of zero and decay the callers may pass, fl + fs stays within 32768 |
| `LaplaceCoder.GuaranteedDeltas` | 3rdparty/opus-1.1.1/celt/laplace.c:36-41 | every delta of magnitude up to LAPLACE_NMIN is coded unchanged |
| `LaplaceCoder.NearRepresentable` | 3rdparty/opus-1.1.1/celt/laplace.c:51-92 | every delta within the decaying part is coded unchanged |
| `LaplaceCoder.Encode` | 3rdparty/opus-1.1.1/celt/laplace.c:51-92 | returns the share of the value, or of the furthest representable value in its direction |
| `LaplaceCoder.NearestIs` | 3rdparty/opus-1.1.1/celt/laplace.c:79-88 | the value reported back is the first representable one towards zero |
| `LaplaceCoder.Decode` | 3rdparty/opus-1.1.1/celt/laplace.c:94-134 | for every frequency below 32768, the value whose share holds it, with the encoder's fl and fh |
| `PulseCounts.USymmetric` | 3rdparty/opus-1.1.1/celt/cwrs.c:196-215 | U(n, k) = U(k, n), which lets the table store half |
| `PulseCounts.IndexInRange` | 3rdparty/opus-1.1.1/celt/cwrs.c:440-456 | the index of a vector is below V(n, k) |
| `PulseCounts.IndexOfVector` | 3rdparty/opus-1.1.1/celt/cwrs.c:463-537 | every index below V(n, k) names a vector with k pulses, and is its index |
| `PulseCounts.VectorOfIndex` | 3rdparty/opus-1.1.1/celt/cwrs.c:440-537 | every vector is the one its index names, so the enumeration is a bijection |
| `PulseCounts.IndexOrdered` | 3rdparty/opus-1.1.1/celt/cwrs.c:440-456 | the enumeration is in lexicographic order, heads running k, ..., 0, -k, ..., -1 |
| `PulseCoder.Icwrs` | 3rdparty/opus-1.1.1/celt/cwrs.c:440-456 | icwrs computes the index, below the number of vectors |
| `PulseCoder.Cwrsi` | 3rdparty/opus-1.1.1/celt/cwrs.c:463-537 | cwrsi writes the vector at an index and returns the sum of its squares |
| `PulseRows.Unext` | 3rdparty/opus-1.1.1/celt/cwrs.c:548-560 | steps a row of U to the next in place, on any stretch of it |
| `PulseRows.Uprev` | 3rdparty/opus-1.1.1/celt/cwrs.c:564-576 | steps a row of U back, from the value before the stretch |
| `PulseRows.NcwrsUrow` | 3rdparty/opus-1.1.1/celt/cwrs.c:579-601 | fills row n of U and returns V(n, k) |
| `PulseRows.IcwrsRows` | 3rdparty/opus-1.1.1/celt/cwrs.c:645-667 | the row-stepping version computes the same index and count |
| `PulseRows.CwrsiRows` | 3rdparty/opus-1.1.1/celt/cwrs.c:605-629 | the row-stepping version writes the same vector and returns the same sum of squares |
| `Log2Frac.MantissaRange` | 3rdparty/opus-1.1.1/celt/cwrs.c:56-66 | the working value stays within 17 bits and its square within 32 at every turn |
| `Log2Frac.SquareMantissa` | 3rdparty/opus-1.1.1/celt/cwrs.c:60-66 | squaring with rounding up keeps the bound on the power |
| `Log2Frac.Log2` | 3rdparty/opus-1.1.1/celt/cwrs.c:41-71 | val to the power 2^frac is at most 2^result, with equality for powers of two, and 2^(result - 1) is below it but for an excess that depends on frac alone |
| `Log2Frac.TightSquared` | 3rdparty/opus-1.1.1/celt/cwrs.c:60-66 | a turn at most squares the relative excess and adds the rounding of one unit |
| `Log2Frac.FourBits` | 3rdparty/opus-1.1.1/celt/cwrs.c:41-44 | with four fractional bits that excess is below one part in 200 of the 32nd power, so the logarithm is overestimated by less than 0.0628 bits |
| `SideCoding.EncodePulses` | 3rdparty/opus-1.1.1/celt/cwrs.c:458-461 | a pulse vector is sent as its index among V(n, k) |
| `SideCoding.DecodePulses` | 3rdparty/opus-1.1.1/celt/cwrs.c:539-541 | decoding gives the vector back with its energy |
| `ThetaPdf.Isqrt32` | 3rdparty/opus-1.1.1/celt/mathops.c:38-65 | the exact floor of the square root for every nonzero 32-bit value, with no trial value past 32 bits |
| `ThetaPdf.WeightsTile` | 3rdparty/opus-1.1.1/celt/bands.c:748-761 | the triangular weights tile [0, (qn/2 + 1)^2) without gap or overlap |
| `ThetaPdf.OwnerUnique` | 3rdparty/opus-1.1.1/celt/bands.c:748-761 | a frequency belongs to at most one angle |
| `ThetaPdf.RootOfTriangle` | 3rdparty/opus-1.1.1/celt/bands.c:768-779 | the square root of 8 fm + 1 inverts the triangular numbers, from below and from above |
| `ThetaPdf.DecodeAngle` | 3rdparty/opus-1.1.1/celt/bands.c:762-782 | for every frequency the square-root formulas give the angle that owns it, with the encoder's fl and fs |
| `SideCoding.EncodeAngle` | 3rdparty/opus-1.1.1/celt/bands.c:719-761 | the angle is coded by the step, uniform or triangular function |
| `SideCoding.AngleOf` | 3rdparty/opus-1.1.1/celt/bands.c:729-782 | the decoder's formulas find the angle whose interval holds the frequency, for step and triangle |
| `SideCoding.DecodeTheta` | 3rdparty/opus-1.1.1/celt/bands.c:719-785 | the decoder returns the angle the packet holds and the encoder's state |
| `TellFrac.EighthIsLog` | 3rdparty/opus-1.1.1/celt/entcode.c:69-113 | the eighth the correction table gives is the one three squarings give, for every mantissa |
| `TellFrac.TellEighths` | 3rdparty/opus-1.1.1/celt/entcode.c:69-84 | ec_tell_frac is never more than ec_tell and less than a bit below it |
| `TellFrac.TellByLoop` | 3rdparty/opus-1.1.1/celt/entcode.c:86-114 | the squaring loop that the table replaced counts the same |
| `TfCoding.TfEncode` | 3rdparty/opus-1.1.1/celt/celt_encoder.c:713-751 | sends the flags that fit and tf_select only if it matters, leaving the resolutions of what was coded |
| `TfCoding.TfDecode` | 3rdparty/opus-1.1.1/celt/celt_decoder.c:352-389 | on what tf_encode sent, leaves the very resolutions tf_encode left, clamped flags included |
| `TfSearch.TraceCosts` | 3rdparty/opus-1.1.1/celt/celt_encoder.c:666-700 | the traced path costs what the cost recursion says |
| `TfSearch.NoneCheaper` | 3rdparty/opus-1.1.1/celt/celt_encoder.c:640-664 | no binary path costs less than the recursion says |
| `TfSearch.Optimal` | 3rdparty/opus-1.1.1/celt/celt_encoder.c:640-700 | the path read off backwards has the minimum cost over all binary paths |
| `TfSearch.SelectCost` | 3rdparty/opus-1.1.1/celt/celt_encoder.c:643-656 | selcost is the minimum for its setting of tf_select |
| `TfSearch.Forward` | 3rdparty/opus-1.1.1/celt/celt_encoder.c:662-693 | costs and recorded predecessors of the forward pass |
| `TfSearch.Search` | 3rdparty/opus-1.1.1/celt/celt_encoder.c:640-702 | the flags are a cheapest path, each selcost is the minimum for its table, and tf_select is set for transients exactly when strictly cheaper |
| `EnergyModel.ProbModel` | 3rdparty/opus-1.1.1/celt/quant_bands.c:76-137 | every pair of the probability table is one the Laplace coder accepts |
| `EnergyLockstep.CodeAgrees` | 3rdparty/opus-1.1.1/celt/quant_bands.c:216-243 | encoder and decoder go on with the same delta except with exactly one bit left and a delta below -1 |
| `EnergyLockstep.ClampedLater` | 3rdparty/opus-1.1.1/celt/quant_bands.c:218-227 | past the first band the clamps exclude that case |
| `EnergyLockstep.StaysInStep` | 3rdparty/opus-1.1.1/celt/quant_bands.c:180-257 | sides that agree go on agreeing through the rest of the pass |
| `EnergyLockstep.FallsOutOfStep` | 3rdparty/opus-1.1.1/celt/quant_bands.c:180-257 | once the case occurs the two sides end with different energies |
| `EnergyLockstep.InStepExactly` | 3rdparty/opus-1.1.1/celt/quant_bands.c:180-257 | both sides end with the same oldEBands if and only if the case does not occur in the first band |
| `EnergyLockstep.OutOfStepExample` | 3rdparty/opus-1.1.1/celt/quant_bands.c:239-242 | a fall of sixteen steps with one bit left: the encoder keeps -16, the decoder hears -1 |
| `EnergyLockstep.OutOfStepReachable` | 3rdparty/opus-1.1.1/celt/quant_bands.c:217-218 | a coder state with exactly one bit left is reachable |
| `EnergyLockstep.ErrorsExplain` | 3rdparty/opus-1.1.1/celt/quant_bands.c:246 | the recorded error is what the reconstruction misses, up to a rounding tie, in every band not held at the floor |
| `EnergyQuality.RecordedOnArrival` | 3rdparty/opus-1.1.1/celt/quant_bands.c:190-257 | what a pass records for a band is what was decided when it came to that band |
| `EnergyQuality.QuantisedNearest` | 3rdparty/opus-1.1.1/celt/quant_bands.c:190-245 | in every band whose delta was sent as asked the error left is at most half a step, and a band kept from falling too fast ends less than a step and a half from its bound |
| `EnergyQuality.SentAsAsked` | 3rdparty/opus-1.1.1/celt/quant_bands.c:213-233 | a delta up to LAPLACE_NMIN is sent as asked while bits are not short |
| `EnergyQuality.KeptSmall` | 3rdparty/opus-1.1.1/celt/quant_bands.c:213-243 | how far deltas are cut as bits run short, and in the low-frequency channel |
| `EnergyQuality.BadnessMeans` | 3rdparty/opus-1.1.1/celt/quant_bands.c:213-247 | a pass adds no badness if and only if every delta was sent as asked |
| `EnergyQuality.GoodPassNear` | 3rdparty/opus-1.1.1/celt/quant_bands.c:156-259 | a pass without badness leaves every band within half a step of its energy, but for those that fall too fast |
| `EnergyQuality.BudgetKept` | 3rdparty/opus-1.1.1/celt/quant_bands.c:216-243 | a pass never takes more bits than the budget leaves |
| `EnergyCoder.EncodeDelta` | 3rdparty/opus-1.1.1/celt/quant_bands.c:228-245 | codes one delta by the means that still fits and reports what the encoder goes on with |
| `EnergyCoder.DecodeDelta` | 3rdparty/opus-1.1.1/celt/quant_bands.c:462-480 | decodes one delta by the means the budget tells |
| `EnergyCoder.QuantCoarseEnergy` | 3rdparty/opus-1.1.1/celt/quant_bands.c:156-259 | one pass over a frame: what is sent, and the energies, errors and badness it leaves, those of the plan whose deltas are the nearest |
| `EnergyCoder.UnquantCoarseEnergy` | 3rdparty/opus-1.1.1/celt/quant_bands.c:427-490 | follows the encoder bit for bit, and ends with its energies if and only if the case above did not occur |
| `EnergyCoder.WholeInStep` | 3rdparty/opus-1.1.1/celt/quant_bands.c:168-257 | the same condition for a frame with its intra flag |
| `RangeTranscripts.NextCost` | 3rdparty/opus-1.1.1/celt/entcode.h:106-113 | a symbol out of a total of 2^n adds at most n bits to ec_tell |
| `RangeTranscripts.ShareCost` | 3rdparty/opus-1.1.1/celt/entcode.h:106-113 | a symbol with 2^k units or more out of 2^n adds at most n - k bits to ec_tell |
| `RangeTranscripts.LogpCost` | 3rdparty/opus-1.1.1/celt/entenc.c:151-162 | a flag that is not raised costs at most one bit, and a raised one at most logp |
| `EnergyLockstep.EnoughBitsInStep` | 3rdparty/opus-1.1.1/celt/quant_bands.c:216-243 | with at least 17 bits left before the first band (any number but one when mono), or none, both sides agree on all energies |
| `EnergyCoder.EnoughBitsForFrame` | 3rdparty/opus-1.1.1/celt/quant_bands.c:168-257 | the same before a whole frame, its intra flag included: 20 bits, or 5 when mono |
| `EnergyPasses.SecondPass` | 3rdparty/opus-1.1.1/celt/quant_bands.c:323-336 | goes back to the copied registers and codes the other pass, keeping what the first had written |
| `EnergyPasses.BothPasses` | 3rdparty/opus-1.1.1/celt/quant_bands.c:296-350 | of two passes into one buffer the cheaper is kept, and encoder, buffer and energies are as if it alone had been made |
| `EnergyPasses.QuantCoarse` | 3rdparty/opus-1.1.1/celt/quant_bands.c:261-350 | which pass is kept, for every wish of the caller, and that encoder, buffer and energies are exactly those of that pass alone |
| `EnergyPasses.KeptNoWorse` | 3rdparty/opus-1.1.1/celt/quant_bands.c:309-350 | of two passes the one kept moved fewer deltas, or as many for no more bits with the charge for lost packets |
| `BitBudget.GivenWithin` | 3rdparty/opus-1.1.1/celt/rate.c:299-317 | the bits handed out at first are at most what the bisection counted |
| `BitBudget.LowFits` | 3rdparty/opus-1.1.1/celt/rate.c:578-615 | the start of the second bisection fits: it is the row the first one found, or nothing |
| `BitBudget.FirstShares` | 3rdparty/opus-1.1.1/celt/rate.c:268-317 | after both bisections the bands hold no negative bits and at most the total |
| `BitBudget.FirstMaximal` | 3rdparty/opus-1.1.1/celt/rate.c:268-297 | the mixture found fits, one sixty-fourth more does not unless it is the last, and the next row, if there is one, does not fit |
| `BitBudget.GivenIs` | 3rdparty/opus-1.1.1/celt/rate.c:299-317 | each band gets its bits up to the cap once a band at or above it is over its threshold, before that one fine bit a channel or nothing |
| `BitShape.TrimTilts` | 3rdparty/opus-1.1.1/celt/rate.c:570-592 | a higher trim takes nothing from any band of a row and leaves the topmost as it is |
| `BitSkip.Dropped` | 3rdparty/opus-1.1.1/celt/rate.c:355-390 | skipping a band keeps psum within the total and every skipped band at zero or one fine bit a channel |
| `BitSkip.DroppedSpends` | 3rdparty/opus-1.1.1/celt/rate.c:355-390 | skipping a band spends its flag and nothing else |
| `BitSkip.SkipSpends` | 3rdparty/opus-1.1.1/celt/rate.c:319-390 | over the whole skip loop, what does not reach the bands is one bit for each flag that skipped |
| `BitShape.TopIsFinal` | 3rdparty/opus-1.1.1/celt/rate.c:333-343 | the skip test looks at what the band would end up with if skipping stopped there |
| `BitShape.SkipStops` | 3rdparty/opus-1.1.1/celt/rate.c:319-376 | the loop stops at the lowest band it may reach, or above it at a band over its threshold that the encoder wants |
| `BitShape.TopWorthCoding` | 3rdparty/opus-1.1.1/celt/rate.c:319-431 | when a flag ended skipping, the final share of the topmost coded band is over its threshold and pays for the flag |
| `BitShape.BoostedKept` | 3rdparty/opus-1.1.1/celt/rate.c:321-331 | boosted bands are always coded |
| `BitShape.KeptOn` | 3rdparty/opus-1.1.1/celt/rate.c:351-361 | a band worth starting to code is worth going on with |
| `BitSkip.Reserved` | 3rdparty/opus-1.1.1/celt/rate.c:543-561 | the reservations and what is left make up the total |
| `BitSplit.SpreadConserves` | 3rdparty/opus-1.1.1/celt/rate.c:420-431 | the two loops hand out exactly what was left |
| `BitShape.SpreadFair` | 3rdparty/opus-1.1.1/celt/rate.c:415-431 | every coded band gets the same eighth bits a coefficient or up to one more, and only the lowest bands get more |
| `BitSplit.FineOf` | 3rdparty/opus-1.1.1/celt/rate.c:436-513 | a band's pulses, fine bits and overrun make up exactly what it was given, none negative and at most MAX_FINE_BITS |
| `BitShape.FineNearest` | 3rdparty/opus-1.1.1/celt/rate.c:448-480 | the fine bits are the number nearest the fair share, or as many fewer as can be afforded, and the priority says that it was not rounded down |
| `BitShape.OverrunUsed` | 3rdparty/opus-1.1.1/celt/rate.c:443-511 | pulses stay within the cap, and only what cannot make another fine bit moves on to the next band |
| `BitSplit.CodedUse` | 3rdparty/opus-1.1.1/celt/rate.c:434-515 | through the coded bands, use plus carried balance is the sum of their shares |
| `BitSplit.SkippedUse` | 3rdparty/opus-1.1.1/celt/rate.c:516-523 | skipped bands use exactly what they kept |
| `BitSplit.NothingLost` | 3rdparty/opus-1.1.1/celt/rate.c:268-637 | pulses, fine bits, balance, skip flags and kept reservations make up the initial total exactly, none negative |
| `BitAllocation.FindRow` | 3rdparty/opus-1.1.1/celt/rate.c:579-607 | the search over rows ends at one that fits, below one that does not or the last |
| `BitAllocation.FindMix` | 3rdparty/opus-1.1.1/celt/rate.c:268-297 | the six halvings end at a mixture that fits, one sixty-fourth below one that does not or at the last |
| `BitAllocation.GiveBits` | 3rdparty/opus-1.1.1/celt/rate.c:299-317 | fills the first shares and their sum |
| `BitAllocation.EncodeSkip` | 3rdparty/opus-1.1.1/celt/rate.c:319-390 | the skip loop sends the planned flags and leaves the planned shares |
| `BitAllocation.DecodeSkip` | 3rdparty/opus-1.1.1/celt/rate.c:319-390 | the skip loop on the decoder's side arrives at the same |
| `BitFinish.SpreadBits` | 3rdparty/opus-1.1.1/celt/rate.c:420-431 | the two loops that hand out what is left |
| `BitFinish.SplitBands` | 3rdparty/opus-1.1.1/celt/rate.c:434-523 | the split of every band into pulses, fine bits and priority, and the balance |
| `BitFinish.EncodeAllocation` | 3rdparty/opus-1.1.1/celt/rate.c:527-638 | compute_allocation while encoding: what is sent and the allocation |
| `BitFinish.DecodeAllocation` | 3rdparty/opus-1.1.1/celt/rate.c:527-638 | compute_allocation while decoding: the very same allocation from the encoder's bits |
| `RbPointers.RbTree.Rotate` | 3rdparty/libuv-v1.8.0/include/tree.h:342-380 | a rotation anywhere in a linked tree turns its shape into the rotated one, links and parents consistent |
| `RbShapes.RotatedOrder` | 3rdparty/libuv-v1.8.0/include/tree.h:342-380 | rotations keep the order of the elements |
| `RbShapes.PlugBalanced` | 3rdparty/libuv-v1.8.0/include/tree.h:407-450 | a balanced subtree in a place that wants it makes a balanced tree |
| `RbInsert.RecoloredFits` | 3rdparty/libuv-v1.8.0/include/tree.h:414-420 | recolouring under a black grandparent keeps the balance and moves the excess red up |
| `RbInsert.SettledFits` | 3rdparty/libuv-v1.8.0/include/tree.h:421-428 | rotation at the grandparent settles a red pair for good |
| `RbInsert.InsertStep` | 3rdparty/libuv-v1.8.0/include/tree.h:411-448 | one turn of RB_INSERT_COLOR keeps everything balanced but for one red pair, and moves up |
| `RbInsert.InsertColor` | 3rdparty/libuv-v1.8.0/include/tree.h:407-450 | ends with a valid red-black tree of the same elements in the same order |
| `RbInsert.Find` | 3rdparty/libuv-v1.8.0/include/tree.h:629-644 | returns the node with the key, or null exactly when there is none |
| `RbInsert.Insert` | 3rdparty/libuv-v1.8.0/include/tree.h:598-626 | adds exactly the given node unless its key is present, and keeps order, links, colours and black height |
| `RbRemove.RedSibling` | 3rdparty/libuv-v1.8.0/include/tree.h:459-464 | a red sibling is exchanged for a black one |
| `RbRemove.RecolorSibling` | 3rdparty/libuv-v1.8.0/include/tree.h:465-471 | a black sibling with black children turns red and the shortage moves to the parent |
| `RbRemove.TurnSibling` | 3rdparty/libuv-v1.8.0/include/tree.h:472-482 | a near red child becomes a far one |
| `RbRemove.SuppliedFits` | 3rdparty/libuv-v1.8.0/include/tree.h:483-491 | with a far red child, recolouring and one rotation make the shortage good |
| `RbRemove.RemoveStep` | 3rdparty/libuv-v1.8.0/include/tree.h:456-522 | one turn of RB_REMOVE_COLOR moves the shortage up or mends it |
| `RbRemove.RemoveColor` | 3rdparty/libuv-v1.8.0/include/tree.h:452-527 | ends with a valid red-black tree of the same elements in the same order |
| `RbRemove.FindLeast` | 3rdparty/libuv-v1.8.0/include/tree.h:541-543 | the successor search ends at the least node of the right subtree |
| `RbRemove.Substitute` | 3rdparty/libuv-v1.8.0/include/tree.h:560-574 | the successor takes over the links and colour of the removed node |
| `RbRemove.Remove` | 3rdparty/libuv-v1.8.0/include/tree.h:530-595 | the tree loses exactly the given node and stays a valid red-black tree |
| `RbOrder.Next` | 3rdparty/libuv-v1.8.0/include/tree.h:668-688 | returns the next element in search order, or null after the last |
| `RbOrder.BalancedSize` | 3rdparty/libuv-v1.8.0/include/tree.h:57-62 | a balanced tree has at least 2^h - 1 elements and at most 2h levels, one more under a red root |
| `RbOrder.HeightBound` | 3rdparty/libuv-v1.8.0/include/tree.h:57-62 | 2^height is at most (n + 1)^2: the height is at most 2 lg (n + 1) |
| `SplayTrees.RaisedFacts` | 3rdparty/libuv-v1.8.0/include/tree.h:88-98 | a splay rotation keeps the elements and their order |
| `SplayTrees.CutOff` | 3rdparty/libuv-v1.8.0/include/tree.h:100-110 | linking the root to a chain keeps the elements in order and all links intact |
| `SplayTrees.Dive` | 3rdparty/libuv-v1.8.0/include/tree.h:216-239 | the loop ends at the key or where the next step would leave the tree, with the key between the two chains |
| `SplayTrees.Assemble` | 3rdparty/libuv-v1.8.0/include/tree.h:112-117 | the chains become the subtrees of the root, same elements, same order |
| `SplayTrees.SplayTree.Splay` | 3rdparty/libuv-v1.8.0/include/tree.h:209-242 | the same elements in the same order, everything left of the root below the key and everything right of it above, in the very shape and within the turns that the Balance Theorem is proved for |
| `SplayTrees.SplayTree.Find` | 3rdparty/libuv-v1.8.0/include/tree.h:128-137 | finds the node with the key exactly when there is one, within the nodes its search meets |
| `SplayTrees.SplayTree.Insert` | 3rdparty/libuv-v1.8.0/include/tree.h:164-186 | adds exactly the given node at the root unless its key is present |
| `SplayTrees.SplayTree.Remove` | 3rdparty/libuv-v1.8.0/include/tree.h:188-207 | takes out exactly the node with the key, if there is one, and returns the argument |
| `SplayBalance.Access` | 3rdparty/libuv-v1.8.0/include/tree.h:209-242 | a splay meets at most seven times the bit length of the size beyond what it takes out of twice the potential |
| `SplayBalance.RequestCheap` | 3rdparty/libuv-v1.8.0/include/tree.h:128-207 | a search, insertion or removal meets at most fourteen times that, likewise |
| `SplayBalance.Balance` | 3rdparty/libuv-v1.8.0/include/tree.h:49-50 | the Balance Theorem: any run of requests on an empty tree meets at most 14 times their number times the bit length of the number of insertions |
| `SplayBalance.Accesses` | 3rdparty/libuv-v1.8.0/include/tree.h:50-51 | from any tree of n nodes, m accesses meet at most (14 m + 2 n) times the bit length of n |
| `PointerHeap.DescendGrows` | 3rdparty/libuv-v1.8.0/src/heap-inl.h:125-145 | each turn of the path at least doubles the node number |
| `PointerHeap.PathTo` | 3rdparty/libuv-v1.8.0/src/heap-inl.h:120-126 | the bits collected spell the path to the given node number |
| `PointerHeap.WalkReaches` | 3rdparty/libuv-v1.8.0/src/heap-inl.h:160-178 | following the bits of a number from the root reaches the node of that number |
| `PointerHeap.UpSwap` | 3rdparty/libuv-v1.8.0/src/heap-inl.h:146-147 | a climb keeps the heap ordered but at the climbing node |
| `PointerHeap.DownSwap` | 3rdparty/libuv-v1.8.0/src/heap-inl.h:211-229 | a descent keeps the heap ordered but around the sinking node |
| `PointerHeap.ReplacedAround` | 3rdparty/libuv-v1.8.0/src/heap-inl.h:192-209 | a node put in place of another disturbs only its own neighbourhood |
| `PointerHeap.RootLeast` | 3rdparty/libuv-v1.8.0/src/heap-inl.h:34-41 | the root is least under any strict weak order |
| `PointerHeap.Heap.Swap` | 3rdparty/libuv-v1.8.0/src/heap-inl.h:71-103 | parent and child change places: exactly their two numbers are exchanged and all links stay consistent |
| `PointerHeap.Heap.Find` | 3rdparty/libuv-v1.8.0/src/heap-inl.h:127-136 | the walk ends at the link of the given node number |
| `PointerHeap.Heap.Insert` | 3rdparty/libuv-v1.8.0/src/heap-inl.h:106-148 | adds exactly the new node to a complete, ordered, consistently linked tree |
| `PointerHeap.Heap.SiftDown` | 3rdparty/libuv-v1.8.0/src/heap-inl.h:211-224 | ends with the node not greater than its children |
| `PointerHeap.Heap.SiftUp` | 3rdparty/libuv-v1.8.0/src/heap-inl.h:226-231 | ends with the whole heap ordered |
| `PointerHeap.Heap.Remove` | 3rdparty/libuv-v1.8.0/src/heap-inl.h:150-237 | removes exactly the given member node, wherever it is, and does nothing on an empty heap |
| `PointerHeap.Heap.Dequeue` | 3rdparty/libuv-v1.8.0/src/heap-inl.h:239-241 | removes a least node |
| `QueueRing.EmptyMeans` | 3rdparty/libuv-v1.8.0/src/queue.h:39-43 | a head is empty exactly when it has no members, and a linked member never looks empty |
| `QueueRing.Init` | 3rdparty/libuv-v1.8.0/src/queue.h:45-51 | makes an empty queue |
| `QueueRing.InsertTail` | 3rdparty/libuv-v1.8.0/src/queue.h:90-97 | appends a member |
| `QueueRing.Remove` | 3rdparty/libuv-v1.8.0/src/queue.h:99-104 | takes out any member and keeps the rest in order; the member keeps stale links and does not look empty |
| `QueueRing.Split` | 3rdparty/libuv-v1.8.0/src/queue.h:62-71 | the members from a given one on go over to the other head |
| `QueueRing.Move` | 3rdparty/libuv-v1.8.0/src/queue.h:73-82 | the whole queue goes over to the other head, which is left empty |
| `ThreadPoolSafety.SafeKept` | 3rdparty/libuv-v1.8.0/src/threadpool.c:64-239 | no step of any thread breaks the invariant on places, locks and histories |
| `ThreadPoolSafety.RunSafe` | 3rdparty/libuv-v1.8.0/src/threadpool.c:64-239 | every state of every run satisfies it |
| `ThreadPoolSafety.DeliveredOnce` | 3rdparty/libuv-v1.8.0/src/threadpool.c:192-238 | done is called at most once on each request, none both runs and is cancelled, and UV_ECANCELED is given exactly when the work never ran |
| `ThreadPoolSafety.ExitAfterEarlier` | 3rdparty/libuv-v1.8.0/src/threadpool.c:64-105 | once a worker has exited, nothing posted before the exit message is still queued |
| `ThreadPoolSafety.NoCircularWait` | 3rdparty/libuv-v1.8.0/src/threadpool.c:61-63 | the holder of a loop's lock can always take its next step, and only a worker can stand in the way of a cancel that holds the mutex |
| `PoolOrder.StartsInOrder` | 3rdparty/libuv-v1.8.0/src/threadpool.c:64-113 | work starts in the order it was posted: what is queued behind a request does not run before that has left the queue |
| `PoolOrder.DoneInOrder` | 3rdparty/libuv-v1.8.0/src/threadpool.c:93-238 | a loop calls done in the order the work finished: on what is behind a request that has run, not before it |
| `ThreadPoolProgress.SignalAttends` | 3rdparty/libuv-v1.8.0/src/threadpool.c:107-113 | a signal leaves a worker awake or finds all of them gone |
| `ThreadPoolProgress.LivelyKept` | 3rdparty/libuv-v1.8.0/src/threadpool.c:69-91 | idle_threads counts the sleepers and a nonempty queue has an awake worker, after every step |
| `ThreadPoolProgress.NeverAbandoned` | 3rdparty/libuv-v1.8.0/src/threadpool.c:64-113 | in no state of any run is there work queued while every remaining worker sleeps unsignalled |
| `ThreadPoolProgress.MutexMover` | 3rdparty/libuv-v1.8.0/src/threadpool.c:61-113 | while the mutex is held, its holder or the one it waits for can take a step |
| `ThreadPoolProgress.RestMeansDone` | 3rdparty/libuv-v1.8.0/src/threadpool.c:64-239 | when no thread can step, every request has been delivered, unless all workers left because of the exit message |
| `ThreadPoolProgress.ComesToRest` | 3rdparty/libuv-v1.8.0/src/threadpool.c:64-239 | a stretch of steps without new calls from outside is bounded, so the pool does come to rest |
| `PoolQueues.CancellableQueued` | 3rdparty/libuv-v1.8.0/src/threadpool.c:198 | when a cancel decides, the link of its request is marked as in no queue exactly when the request is in none |
| `PoolQueues.DecideRemoves` | 3rdparty/libuv-v1.8.0/src/threadpool.c:198-200 | a cancel that goes ahead takes exactly its request out of the one queue that holds it, the others in order |
| `PoolQueues.QueuedLinked` | 3rdparty/libuv-v1.8.0/src/threadpool.c:64-113 | a request found in a queue is linked, of that queue's loop and in the phase the queue stands for |
| `PoolRings.Insert` | 3rdparty/libuv-v1.8.0/src/queue.h:90-97 | an insertion into one of several disjoint rings leaves all of them rings, disjoint |
| `PoolRings.Remove` | 3rdparty/libuv-v1.8.0/src/queue.h:99-104 | likewise a removal, after which the link does not look empty |
| `PoolRings.MoveAll` | 3rdparty/libuv-v1.8.0/src/queue.h:73-82 | likewise the move of a whole queue |
| `PoolRings.Pool.TakeWork` | 3rdparty/libuv-v1.8.0/src/threadpool.c:79-87 | the front request is taken off its ring and its link marked, as the protocol takes it |
| `PoolRings.Pool.FinishWork` | 3rdparty/libuv-v1.8.0/src/threadpool.c:97-102 | the finished request goes to the tail of its loop's ring with its work pointer cleared |
| `PoolRings.Pool.CancelWork` | 3rdparty/libuv-v1.8.0/src/threadpool.c:198-203 | the test of QUEUE_EMPTY on the request's link and of its work pointer decides as the protocol does, and the ring loses exactly that request |
| `PoolRings.Pool.DrainLoop` | 3rdparty/libuv-v1.8.0/src/threadpool.c:227 | the loop's ring goes over to the stack of uv__work_done |
| `PoolRings.Pool.FinishDone` | 3rdparty/libuv-v1.8.0/src/threadpool.c:230-236 | the next request is taken off that ring |
| `PoolRings.Pool.Step` | 3rdparty/libuv-v1.8.0/src/threadpool.c:64-239 | every step of every thread, done with the ring operations of the source, keeps rings, heads, stale and marked links and work pointers in agreement with the protocol |
| `InetText.DottedBack` | 3rdparty/libuv-v1.8.0/src/inet.c:186-222 | inet_pton4 of what inet_ntop4 writes is the address |
| `InetShape.Parse4Exact` | 3rdparty/libuv-v1.8.0/src/inet.c:186-222 | inet_pton4 takes a text for an address if and only if it is the one inet_ntop4 writes |
| `InetShape.WrittenShape` | 3rdparty/libuv-v1.8.0/src/inet.c:118-146 | the text has lower-case digits only and no leading zeros, and a dot exactly where the tail is an IPv4 address |
| `InetShape.EmbeddedIs` | 3rdparty/libuv-v1.8.0/src/inet.c:129-138 | the tail is dotted exactly for ten zero bytes followed by 0xffff, or by a zero word and a nonzero one |
| `InetText.WrittenBack` | 3rdparty/libuv-v1.8.0/src/inet.c:225-309 | inet_pton6 of what inet_ntop6 writes is the address, for every address and elided run, IPv4 tails included |
| `InetText.FilledBack` | 3rdparty/libuv-v1.8.0/src/inet.c:288-305 | putting the zeros of :: back in restores the sixteen bytes |
| `InetText.ReadTail` | 3rdparty/libuv-v1.8.0/src/inet.c:274-282 | an IPv4 tail is read from the text its first group began with |
| `InetGrammar.FormParsed` | 3rdparty/libuv-v1.8.0/src/inet.c:225-309 | every text of the grammar of RFC 4291 section 2.2 is taken, for the address it stands for |
| `InetGrammar.ParsedForm` | 3rdparty/libuv-v1.8.0/src/inet.c:225-309 | every text that is taken has that grammar and stands for the address stored |
| `InetGrammar.Parse6Exact` | 3rdparty/libuv-v1.8.0/src/inet.c:225-309 | inet_pton6 takes a text for an address if and only if the grammar gives it that meaning |
| `Inet.FindRun` | 3rdparty/libuv-v1.8.0/src/inet.c:86-116 | finds the first of the longest runs of at least two zero words, or none |
| `Inet.Ntop4` | 3rdparty/libuv-v1.8.0/src/inet.c:53-65 | writes dotted decimal, with UV_ENOSPC exactly when it does not fit |
| `Inet.Ntop6` | 3rdparty/libuv-v1.8.0/src/inet.c:68-154 | writes the text with that run elided, in lower case without leading zeros, dotted exactly for embedded IPv4 addresses, always within the local buffer, with UV_ENOSPC exactly when the caller's is too small |
| `Inet.Pton4` | 3rdparty/libuv-v1.8.0/src/inet.c:186-222 | accepts exactly the texts of the specification and stores nothing on an error |
| `Inet.Scan6` | 3rdparty/libuv-v1.8.0/src/inet.c:245-287 | the loop over the characters reaches the specified state or the error |
| `Inet.Shift` | 3rdparty/libuv-v1.8.0/src/inet.c:293-302 | the overlapping shift moves what follows :: to the end and clears the gap |
| `Inet.Pton6` | 3rdparty/libuv-v1.8.0/src/inet.c:225-309 | accepts exactly the texts of the specification and stores nothing on an error |
| `Inet.PrintAndParse` | 3rdparty/libuv-v1.8.0/src/inet.c:68-309 | printing any address and parsing the text gives the address back |
| `BlockMath.BitShiftValue` | lib/mumble/ocb_aes.c:416-444 | shifting bits across bytes multiplies the number, apart from what leaves the top |
| `BlockMath.LeftShiftValue` | lib/mumble/ocb_aes.c:416-444 | left_shift is a big-endian shift modulo 256 to the length, for any number of bits |
| `BlockMath.DoubleIsTimesX` | lib/mumble/ocb_aes.c:408-414 | double_block is multiplication by x in GF(2^128) |
| `BlockMath.XorBlockCancels` | lib/mumble/ocb_aes.c:472-476 | exclusive or with the same block twice cancels |
| `Ocb2.BlockBack` | lib/mumble/ocb_aes.c:242-259 | decrypting a block returns the plaintext and leaves the same delta and checksum |
| `Ocb2.RunBack` | lib/mumble/ocb_aes.c:95-107 | block by block, deltas and checksums of both sides agree |
| `Ocb2.RoundTrip` | lib/mumble/ocb_aes.c:76-109 | decryption inverts encryption for every length |
| `Ocb2.TagsAgree` | lib/mumble/ocb_aes.c:261-298 | both sides compute the same tag if and only if the bytes after the whole blocks meet a key stream of zeros |
| `Ocb2.TagsAgreeOnWholeBlocks` | lib/mumble/ocb_aes.c:76-109 | the tags agree for every length that is a multiple of 16 |
| `Ocb2Tags.OffsetValue` | lib/mumble/ocb_aes.c:242-259 | the offset of block i is x^i times the enciphered IV in GF(2^128) |
| `Ocb2Tags.TripleValue` | lib/mumble/ocb_aes.c:462-466 | triple_block is multiplication by x + 1 |
| `Ocb2Tags.SealedForm` | lib/mumble/ocb_aes.c:76-93 | every block, the rest and the tag, each from its own offset: the definition of OCB2 without a running state |
| `Ocb2Tags.TagSealsSum` | lib/mumble/ocb_aes.c:261-298 | two messages of one length have the same tag under one IV if and only if their blocks, the last completed from the key stream, have the same sum |
| `Ocb2Tags.OneBlockChanged` | lib/mumble/ocb_aes.c:261-298 | messages that differ in one block, whole or partial, have different tags |
| `Ocb2Tags.OpenAccepts` | lib/mumble/ocb_aes.c:95-109 | whatever arrives, its tag is the sealed one if and only if what is recovered, with the bytes left over as they arrived, has the sum of the message |
| `Ocb2Code.ShiftLeft` | lib/mumble/ocb_aes.c:416-444 | the byte loop computes left_shift |
| `Ocb2Code.DoubleBlock` | lib/mumble/ocb_aes.c:408-414 | writes the doubled block |
| `Ocb2Code.EncryptBlock` | lib/mumble/ocb_aes.c:242-259 | one block of the output, delta and checksum |
| `Ocb2Code.DecryptBlock` | lib/mumble/ocb_aes.c:305-324 | the same for decryption |
| `Ocb2Code.FinalBlock` | lib/mumble/ocb_aes.c:261-298 | the partial block and the tag over the checksum of the whole message, with which both directions end |
| `Ocb2Code.Encrypt` | lib/mumble/ocb_aes.c:76-93 | the whole output and tag |
| `Ocb2Code.Decrypt` | lib/mumble/ocb_aes.c:95-109 | the whole output and tag |
| `Ocb2Code.SealAndOpen` | lib/mumble/ocb_aes.c:76-109 | a message encrypted and decrypted under one IV is the message, with equal tags for whole blocks |

## Left out

- Integer widths: `nbits_total` and `ext` are unbounded, as are the PVQ sums (the callers keep V(n, k) below 2^32), the coarse energies and the bit allocator's products; the coder's own 32-bit registers are bounded and proved to stay so.
- `ec_enc_patch_initial_bits` and the small-divisor table of `celt_udiv` (plain division is used).
- The 16-bit `val` of `cwrsi`, whose magnitudes the caller bounds.
- `TfSearch`: the band metrics are inputs; `l1_metric` and the Haar transforms that produce them are floating-point or rounding signal processing.
- `EnergyPasses.QuantCoarse`: the update of `delayedIntra` from the distortion of the frame, and what the errors of bands outside the frame are left as; the fine-energy passes.
- `EnergyLockstep.InStepExactly`: the condition is the guard of the failing branch for each channel of the first band, evaluated at the bits left when its turn comes.
- Floating-point branches, transforms, pitch search, concealment and rate control.
- `compute_theta`: only the entropy coding of the angle; quantising the angle and the stereo split are signal processing.
- `RB_PREV`, `RB_NFIND`, `RB_MINMAX`, `SPLAY_NEXT` and `SPLAY_MINMAX`: easy beside what is proved.
- Keys of tree nodes are integers that stand for any total order; heap nodes take any strict weak order on keys that do not change while queued.
- `PoolRings.Pool.Step`: the queue on the stack of `uv__work_done` is an initialised head that stays; in the source it is made anew by `QUEUE_MOVE` each time.
- Cancelling or resubmitting a request after its done callback has begun, thread creation and joining, and memory models: steps between lock operations are atomic.
- A request is cancelled from its own loop's thread, as the callers do.
- `uv_inet_pton`'s zone suffix and the address-family dispatch.
- AES itself, which is any pair of functions on blocks of which one undoes the other; key set-up; OCB3, whose decryption is empty in the source; encryption in place.
- `Log2Frac.FourBits`: the comment reports 0.06254243 bits as the largest overestimate with four fractional bits, found by trying all inputs; the bound proved is 0.0628.
- `Ocb2.TagsAgree`: for a partial last block the condition speaks of the key stream, which a caller cannot see before the call.
- Sockets, TLS, timers, protocol buffers and callbacks around these cores.
