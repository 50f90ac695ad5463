# A verified model of the audio code

The repository carries the software side of Android telephony audio: the default audio HAL wrapper (`audio/impl`), and the IMS
client's native signal processing, which consists of the RNNoise noise suppressor with the Opus kernels it builds on, and a
wrapper around the WebRTC echo canceller (`packages/PhhIms/app/jni`). The modules here model that code in Dafny and prove what
it is for.

* **Fourier transform.** `Factor`, `BitRev`, `Trig`, `Twiddle`, `CooleyTukey`, `RadixAlgebra`, `Butterfly`, `Fft` (kiss_fft.c): factoring
  of the length, the digit-reversal table, in-place butterflies of radix 2, 3, 4 and 5, and the theorem that the whole is the
  discrete Fourier transform and that the inverse undoes it. `Transform` and `OverlapAdd` (denoise.c) carry that to real windows
  through half a spectrum and to exact reconstruction of a whole run of frames.
* **Correlation, prediction and pitch.** `Correlation`, `Levinson`, `Iir` (pitch.h, pitch.c, celt_lpc.c), `BestPitch`,
  `PitchSearch`, `RemoveDoubling`, `Downsample`, `PitchTracker` (pitch.c, denoise.c).
* **Bands and network.** `Bands` (denoise.c), `Rnn` (rnn.c), `ModelFile` (dump_rnn.py against rnn_reader.c).
* **Stream workers.** `StreamWorker` is the client, worker and closer as a state machine over all interleavings;
  `StreamLifecycle` has the counters and close operations (StreamOut.cpp, StreamIn.cpp, Device.cpp).
* **Echo canceller.** `EchoCanceler` (webrtc_aec_jni.cpp).

`Arith`, `Reals`, `Inequalities` and `Complex` hold the arithmetic the others share, `Options` and `Sizes` a datatype and constants.

Conventions. Samples are exact reals; a product has the name `SMul`, after the macro of the code, so that proofs can treat it as
an atom. The transcendental functions enter by what is needed of them only: cosine and sine satisfy the addition theorems, their
parity, the values at a quarter turn, and have no period shorter than a whole turn, from which everything about twiddle table
and window is derived; a square root is non-negative and squares to its argument; the tanh table has values in [0, 1]. Where the
code would leave an array, the model stops and says so in a result named overflow, or inside for the opposite, and the contract
says exactly when; where it
would divide by zero, in one named zeroDivisor. Code that works in place on buffers is a
method on arrays, objects with fields are classes, and each is proved against a specification function or predicate whose own
properties are lemmas. An address into a buffer is an array and an offset.

## Findings

* The unrolled branch of `celt_iir` (celt_lpc.c:185-192) treats its sign convention differently in the tail loop: the buffer holds
  negated outputs, the tail subtracts again. The two branches agree on all inputs exactly when N is a multiple of 4
  (`Iir.AgreeExactlyOnMultiplesOfFour`). Nothing in this repository calls it.
* `dump_rnn.py` clips quantised weights at 127 but not at -128, and `rnn_reader.c` stores them in a signed char: the round trip is
  exact if and only if no weight is at or below -128.5/256 and no dimension exceeds 128 (`ModelFile.RoundTripExact`).
* `kf_factor` stores a ninth radix into a list of eight exactly for the lengths with more than eight stages, of which 13122 is the
  shortest; and `opus_fft_impl` writes entry MAXFACTORS of `fstride[MAXFACTORS]` exactly for the states with eight stages, of which
  that of 4374 is the shortest (`Factor.KfFactor`, `Fft.FillStrides`, `Factor.LongestLengths`). The one length the repository
  transforms, 960, is far below (`Transform.NoOverflow`).
* `_celt_lpc` guards against ac[0] = 0 only: with a negative ac[0] the error can become zero without ending the loop, after
  one step exactly when ac[1] equals ac[0] in magnitude (`Levinson.CeltLpc`, `Levinson.ZeroAfterOneStep`). `_celt_autocorr`
  never gives a negative one.
* `ReadThread::doRead` leaves the count of an earlier command in the status of a failed read (StreamIn.cpp:95-103), where
  `WriteThread::doWrite` clears it (StreamOut.cpp:89-90): counts add up to the bytes delivered over the statuses that are OK, and
  over all statuses only under the condition of `StreamWorker.AllCountsRight`.
* `rnn_reader.c` checks every dimension against 128 but not the layers against each other or against what the caller holds:
  `compute_rnn` stays inside its arrays exactly for the models whose layers fit (`Rnn.RNNState.ComputeRnn`), and models that do
  not are accepted (`ModelFile.AcceptedNeedNotFit`).
* A command still in the queue when the worker exits is never answered, and only such a command is not
  (`StreamWorker.AnsweredAfterExit`).
* From version 6 on `close()` closes the stream of the hardware before the worker is joined, so that one call of the hardware can
  still follow; up to version 5 none can (`StreamWorker.CallsAfterClose`).
* The offset by which `pitch_search` refines its lag is subtracted (pitch.c:384), away from the larger neighbour, where
  `remove_doubling` adds it (pitch.c:522): `PitchSearch.RefinedMoves`, `RemoveDoubling.PeriodMoves`.
* `interp_band_gain` clears FREQ_SIZE bytes where FREQ_SIZE floats were probably meant (denoise.c:152). The bands overwrite what is
  left half-cleared; bins from 400 on keep what the caller had there.
* In `remove_doubling` the strictest threshold (pitch.c:495-496) is unreachable, because a period below twice the minimum is also
  below three times the minimum. The clamps in pitch.c:102 and pitch.c:453 never act in exact arithmetic.
* `Stream::MAX_BUFFER_SIZE` is written 2 << 30 and commented as 1 GiB (audio/impl/include/core/default/Stream.h:63); the model
  follows the code, 2 GiB.

## Model

| member | source | states |
|---|---|---|
| `Factor.KfFactor` | packages/PhhIms/app/jni/rnnoise/src/kiss_fft.c:352-404 | For every length from 1 to 32767: it terminates, and comes to a ninth store, outside the list, if and only if the length has more than MAXFACTORS stages (overflow). Otherwise it accepts exactly the lengths without a prime factor above 5; on acceptance the list satisfies p[i] m[i] = m[i-1] with m[-1] = n and last m = 1, every radix is 2, 3, 4 or 5 (1 only for n = 1), a radix-2 stage has m = 1 or m = 4, which kf_bfly2 relies on, and the radices stand in the reversed order: 5s, 3s, then 4s and the 2, with radix 4 in the last stage whenever 4 divides n |
| `Factor.NextRadix` | packages/PhhIms/app/jni/rnnoise/src/kiss_fft.c:361-369 | The search for the next trial radix terminates at a divisor of n; an answer above 5 is given only when n has a prime factor above 5 and no further stage, one from 2 to 5 is the radix the order 4, 2, 3, 5 takes next |
| `Factor.Reverse` | packages/PhhIms/app/jni/rnnoise/src/kiss_fft.c:391-397 | The in-place reversal puts radix count-1-k at k |
| `Factor.FillLengths` | packages/PhhIms/app/jni/rnnoise/src/kiss_fft.c:398-402 | The lengths written behind the reversed radices complete a valid factor list |
| `Factor.StoreRadix` | packages/PhhIms/app/jni/rnnoise/src/kiss_fft.c:379-385 | Storing a radix, with the swap of a late 2 for a 4, keeps the product, the number of stages still to come and the place of the single 2 |
| `Factor.StagesSuffice` | packages/PhhIms/app/jni/rnnoise/src/kiss_fft.c:352-404 | Every length below 2 * 3^k is factored in at most k stages, so 8 slots are enough below 13122 |
| `Factor.LongestLengths` | packages/PhhIms/app/jni/rnnoise/src/kiss_fft.c:379-385 | 13122 has nine stages and is the shortest length with more than eight; 4374 has eight and is the shortest with more than seven |
| `Factor.FewStages` | packages/PhhIms/app/jni/rnnoise/src/kiss_fft.c:530-537 | Every valid factor list of a length below 4374 has fewer than MAXFACTORS stages |
| `Factor.StagesSharp` | packages/PhhIms/app/jni/rnnoise/src/kiss_fft.c:352-404 | 2 * 3^k itself needs k + 1 stages: the bound is sharp |
| `BitRev.ComputeBitrevTable` | packages/PhhIms/app/jni/rnnoise/src/kiss_fft.c:315-345 | The recursion through the strided address writes exactly the entries whose index has the given residue modulo the stride, each with base plus the digit reversal of its quotient; at the top level that is the whole table |
| `BitRev.SrcRev` | packages/PhhIms/app/jni/rnnoise/src/kiss_fft.c:315-345 | The digit reversal maps 0..n-1 into itself and has a left inverse, so no two samples go to one place |
| `BitRev.RevSrc` | packages/PhhIms/app/jni/rnnoise/src/kiss_fft.c:315-345 | It has a right inverse, so every place is filled: with SrcRev, a permutation |
| `BitRev.RevOfBlock` | packages/PhhIms/app/jni/rnnoise/src/kiss_fft.c:336-343 | Reversing the digits of base plus r times stride splits off the most significant digit: mixed-radix reversal |
| `CooleyTukey.CombineBlocks` | packages/PhhIms/app/jni/rnnoise/src/kiss_fft.c:518-564 | If p decimated sub-transforms stand in a block, the radix-p combination of them is the transform of the block's own decimated subsequence, for every p |
| `CooleyTukey.WholeDft` | packages/PhhIms/app/jni/rnnoise/src/kiss_fft.c:518-564 | The sub-transform with stride 1 over all samples is the discrete Fourier transform |
| `Twiddle.GeometricSum` | packages/PhhIms/app/jni/rnnoise/src/kiss_fft.c:406-421 | From the group law of the table alone: a geometric sum over a full cycle with ratio other than 1 is zero |
| `Twiddle.Orthogonal` | packages/PhhIms/app/jni/rnnoise/src/kiss_fft.c:406-421 | Sum over k of W^(ke) is n when n divides e and 0 otherwise |
| `Trig.ComputeTwiddles` | packages/PhhIms/app/jni/rnnoise/src/kiss_fft.c:406-421 | For every length, entry i is exp(-2 pi sqrt(-1) i / n), cosine and sine of it; and from addition theorems, parity, a quarter turn and no earlier period the table is a cyclic group of that order closed under conjugation with the quarter and eighth entries the butterflies rely on |
| `Trig.TurnAt` | packages/PhhIms/app/jni/rnnoise/src/kiss_fft.c:406-421 | Read at any exponent modulo the length, as the transform reads it, the table gives the root of unity with that exponent |
| `Trig.Complement` | packages/PhhIms/app/jni/rnnoise/src/denoise.c:172-173 | sin^2(a) + sin^2(pi/2 - a) = 1 from the addition theorems |
| `RadixAlgebra.Algebra3` | packages/PhhIms/app/jni/rnnoise/src/kiss_fft.c:173-228 | The radix-3 butterfly's real arithmetic computes the three sums over the cube roots of unity |
| `RadixAlgebra.Algebra5` | packages/PhhIms/app/jni/rnnoise/src/kiss_fft.c:232-305 | The radix-5 butterfly's shared partial sums compute the five sums over the fifth roots of unity |
| `RadixAlgebra.Roots5` | packages/PhhIms/app/jni/rnnoise/src/kiss_fft.c:232-305 | The two table entries the radix-5 butterfly reads and their conjugates stand for all the powers it needs |
| `Butterfly.KfBfly2` | packages/PhhIms/app/jni/rnnoise/src/kiss_fft.c:45-99 | In place, for m = 1 and for the degenerate m = 4 with its constant 0.707..., every block of 2m becomes the radix-2 combination of its halves |
| `Butterfly.KfBfly3` | packages/PhhIms/app/jni/rnnoise/src/kiss_fft.c:173-228 | In place, every block of 3m becomes the radix-3 combination of its thirds |
| `Butterfly.KfBfly4` | packages/PhhIms/app/jni/rnnoise/src/kiss_fft.c:101-168 | In place, for m = 1 and for the general case, every block of 4m becomes the radix-4 combination of its quarters |
| `Butterfly.KfBfly5` | packages/PhhIms/app/jni/rnnoise/src/kiss_fft.c:232-305 | In place, every block of 5m becomes the radix-5 combination of its fifths |
| `Fft.StageAdvance` | packages/PhhIms/app/jni/rnnoise/src/kiss_fft.c:539-563 | The stage invariant: if every block of length m holds the transform of its decimated subsequence and a stage is run, every block of length p m does |
| `Fft.LoadedIsStageInv` | packages/PhhIms/app/jni/rnnoise/src/kiss_fft.c:578-584 | The digit-reversed load establishes the stage invariant for blocks of length 1 |
| `Fft.RunStage` | packages/PhhIms/app/jni/rnnoise/src/kiss_fft.c:545-561 | The switch runs the butterfly of the stage's radix on all its blocks |
| `Fft.FillStrides` | packages/PhhIms/app/jni/rnnoise/src/kiss_fft.c:530-537 | The strides of all stages are filled in, and the last write comes to lie outside the array if and only if there are MAXFACTORS stages (overflow) |
| `Fft.OpusFftImpl` | packages/PhhIms/app/jni/rnnoise/src/kiss_fft.c:518-564 | From a digit-reversed input, all stages in place leave the discrete Fourier transform, unless the strides overflow, which is exactly with MAXFACTORS stages |
| `Fft.OpusFft` | packages/PhhIms/app/jni/rnnoise/src/kiss_fft.c:566-586 | For every state the allocator makes and every complex input: output k is 1/n times the sum of fin[j] exp(-2 pi sqrt(-1) j k / n), in cosine and sine, unless the strides overflow |
| `Fft.OpusIfft` | packages/PhhIms/app/jni/rnnoise/src/kiss_fft.c:589-601 | Output i is the sum of fin[k] exp(2 pi sqrt(-1) k i / n), unscaled, through the forward butterflies on conjugates, unless the strides overflow |
| `Fft.FourierSum` | packages/PhhIms/app/jni/rnnoise/src/kiss_fft.c:566-601 | Over a table of turns both sums are the Fourier sums in cosine and sine |
| `Fft.OpusFftAlloc` | packages/PhhIms/app/jni/rnnoise/src/kiss_fft.c:434-493 | For every length from 1 to 32767 whose factor list does not overflow, a state is made exactly for the lengths without a prime factor above 5; it satisfies what the transforms need, its table holds the powers of exp(-2 pi sqrt(-1) / n), and has MAXFACTORS stages exactly when its length has |
| `Fft.ConjDft` | packages/PhhIms/app/jni/rnnoise/src/kiss_fft.c:589-601 | The conjugate of the transform of the conjugate is the inverse sum |
| `Fft.Inversion` | packages/PhhIms/app/jni/rnnoise/src/kiss_fft.c:566-601 | Fourier inversion over the table: the inverse sum of the transform is n times the input |
| `Fft.RoundTrip` | packages/PhhIms/app/jni/rnnoise/src/kiss_fft.c:566-601 | opus_ifft_c after opus_fft_c gives back every complex input exactly, for every state with fewer than MAXFACTORS stages, and overflows for the others |
| `Fft.ConjugateAll` | packages/PhhIms/app/jni/rnnoise/src/kiss_fft.c:596-600 | Both sign-flipping loops conjugate every entry in place |
| `Transform.ForwardTransform` | packages/PhhIms/app/jni/rnnoise/src/denoise.c:212-225 | The first FREQ_SIZE bins are the scaled transform of the real window |
| `Transform.InverseTransform` | packages/PhhIms/app/jni/rnnoise/src/denoise.c:227-245 | The output, a forward transform of the mirrored bins read backwards, is the inverse sum's real part |
| `Transform.MirrorOfBins` | packages/PhhIms/app/jni/rnnoise/src/denoise.c:232-238 | For a real window the discarded bins are the conjugates of the kept ones, so mirroring restores the whole spectrum |
| `Transform.TransformRoundTrip` | packages/PhhIms/app/jni/rnnoise/src/denoise.c:212-245 | inverse_transform after forward_transform is the identity on every real window although only FREQ_SIZE bins are kept |
| `Transform.NoOverflow` | packages/PhhIms/app/jni/rnnoise/src/denoise.c:212-245 | The window length of the pipeline does not overflow the strides |
| `OverlapAdd.CheckInit` | packages/PhhIms/app/jni/rnnoise/src/denoise.c:168-174 | From a cosine and a sine with the addition theorems: the transform state with its table of turns and the sine window on which the rest of the pipeline is proved |
| `OverlapAdd.MakeHalfWindow` | packages/PhhIms/app/jni/rnnoise/src/denoise.c:172-173 | Sample i is sin(pi/2 sin^2(pi (i + 1/2) / 960)), and from sin^2(a) + sin^2(pi/2 - a) = 1 alone squares of mirrored samples add up to 1 |
| `OverlapAdd.WindowRises` | packages/PhhIms/app/jni/rnnoise/src/denoise.c:172-173 | For a sine that grows over its first quarter the half window rises from sample to sample between 0 and 1 |
| `OverlapAdd.ApplyWindow` | packages/PhhIms/app/jni/rnnoise/src/denoise.c:247-254 | Both halves of the buffer are weighted with the mirrored half window, sample i and the i-th from the end with w[i] |
| `OverlapAdd.Biquad` | packages/PhhIms/app/jni/rnnoise/src/denoise.c:410-420 | Output and final memory are those of the specification of the two-cell filter, also in place |
| `OverlapAdd.DifferenceEquation` | packages/PhhIms/app/jni/rnnoise/src/denoise.c:410-420 | The two memory cells realise y[k] = x[k] + b0 x[k-1] + b1 x[k-2] - a0 y[k-1] - a1 y[k-2] |
| `OverlapAdd.HighPassEquation` | packages/PhhIms/app/jni/rnnoise/src/denoise.c:470-472 | The filter of the pipeline: y[k] = x[k] - 2 x[k-1] + x[k-2] + 1.99599 y[k-1] - 0.996 y[k-2] |
| `OverlapAdd.ConstantRemoved` | packages/PhhIms/app/jni/rnnoise/src/denoise.c:470-472 | It removes a constant: settled on one, its output is zero |
| `OverlapAdd.BiquadSplit` | packages/PhhIms/app/jni/rnnoise/src/denoise.c:410-420 | Filtering frame by frame with the kept memory is filtering the concatenation |
| `OverlapAdd.DenoiseState.FrameAnalysis` | packages/PhhIms/app/jni/rnnoise/src/denoise.c:295-306 | The spectrum is that of the window over the previous and the current frame; the current frame is kept |
| `OverlapAdd.DenoiseState.FrameSynthesis` | packages/PhhIms/app/jni/rnnoise/src/denoise.c:401-408 | Output is the first half of the windowed inverse plus what was kept; the second half is kept |
| `OverlapAdd.DenoiseState.ProcessFrame` | packages/PhhIms/app/jni/rnnoise/src/denoise.c:458-494 | For whatever spectrum network, pitch filter and gains put in place of the analysed one: output and new state of a frame as functions of the old state, the input and that spectrum, also when output and input are one buffer |
| `OverlapAdd.DenoiseState.constructor` | packages/PhhIms/app/jni/rnnoise/src/denoise.c:264-274 | All signal memories start at zero |
| `OverlapAdd.TwoUnchangedFrames` | packages/PhhIms/app/jni/rnnoise/src/denoise.c:295-308 | From any state, two frames in a row whose spectrum is unchanged when it reaches the synthesis, passed on as silent or processed: the second output is exactly the first frame, high-passed |
| `OverlapAdd.SilentIsUnchanged` | packages/PhhIms/app/jni/rnnoise/src/denoise.c:475-492 | A frame passed on as silent is unchanged |
| `OverlapAdd.Reconstruction` | packages/PhhIms/app/jni/rnnoise/src/denoise.c:458-494 | Over any run from the cleared state, whenever the spectra of two consecutive frames reach the synthesis unchanged, the output is exactly the previous frame of the high-passed whole input, whatever was done to earlier frames |
| `OverlapAdd.LevelsCrossfade` | packages/PhhIms/app/jni/rnnoise/src/denoise.c:475-494 | Two frames in a row whose spectra the network brings back at levels p and q: the first comes out, high-passed, at p times its falling window squared plus q times the rising one squared; equal levels change the loudness only |
| `OverlapAdd.SynthesisScaled` | packages/PhhIms/app/jni/rnnoise/src/denoise.c:401-408 | The windowed inverse is proportional to its spectrum |
| `OverlapAdd.FirstFrame` | packages/PhhIms/app/jni/rnnoise/src/denoise.c:401-408 | The first frame, unchanged, comes out as silence: the delay is one frame |
| `OverlapAdd.HighPassRun` | packages/PhhIms/app/jni/rnnoise/src/denoise.c:410-420 | Over any run the filter memory is that of one filter running over the whole input |
| `Correlation.XcorrKernel` | packages/PhhIms/app/jni/rnnoise/src/pitch.h:53-117 | For every len of at least 3, with the rotating registers and the three tail cases: four shifted inner products are added, reading exactly len + 3 samples of y |
| `Correlation.InnerProd` | packages/PhhIms/app/jni/rnnoise/src/pitch.h:136-144 | The inner product |
| `Correlation.DualInnerProd` | packages/PhhIms/app/jni/rnnoise/src/pitch.h:119-132 | Two inner products with one operand in common |
| `Correlation.PitchXcorrSimple` | packages/PhhIms/app/jni/rnnoise/src/pitch.c:222-240 | The reference double loop writes xcorr[i] = sum of x[j] y[i+j] for i below max_pitch and nothing else |
| `Correlation.PitchXcorr` | packages/PhhIms/app/jni/rnnoise/src/pitch.c:242-281 | The unrolled form has the same contract as the reference form, within the array bounds |
| `Correlation.CeltFir` | packages/PhhIms/app/jni/rnnoise/src/celt_lpc.c:91-122 | y[i] = x[i] + sum of num[j] x[i-1-j], history before x included, for every N, and every order of at least 3 once the kernel is reached |
| `Correlation.Convolution` | packages/PhhIms/app/jni/rnnoise/src/celt_lpc.c:100-109 | The inner product with reversed coefficients is the convolution |
| `Correlation.Taper` | packages/PhhIms/app/jni/rnnoise/src/celt_lpc.c:218-224 | Of the two writes to a sample when the overlaps meet, the one in the later pass stands |
| `Correlation.CeltAutocorr` | packages/PhhIms/app/jni/rnnoise/src/celt_lpc.c:198-256 | ac[k] = sum over i >= k of x[i] x[i-k] of the tapered input for every k up to lag, and ac[0] >= 0 |
| `Correlation.AutocorrSplit` | packages/PhhIms/app/jni/rnnoise/src/celt_lpc.c:250-256 | The fast part over n - lag samples and the correction loop make the whole sum |
| `Correlation.ReverseInto` | packages/PhhIms/app/jni/rnnoise/src/celt_lpc.c:100-101 | The coefficients in reverse order |
| `Correlation.FirSample` | packages/PhhIms/app/jni/rnnoise/src/celt_lpc.c:117-120 | One sample of the tail loop is the same convolution |
| `Correlation.TailSum` | packages/PhhIms/app/jni/rnnoise/src/celt_lpc.c:253-254 | The products the fast part left out for one lag |
| `Levinson.CeltLpc` | packages/PhhIms/app/jni/rnnoise/src/celt_lpc.c:37-88 | For every ac: the recursion goes to the first order m that has no step, which is p, the first whose error is below ac[0]/1000, or the first with error zero; lpc holds its coefficients, which solve the normal equations of order m, and zeros; the error is ac[0] times the product of the factors 1 - r^2. With ac[0] > 0 every division is by a positive error and every r that did not end the recursion with a non-positive error has r^2 < 1. A division by zero is reached if and only if ac[0] is not 0 and the recursion over ac comes to an order below p with error zero and no reason to end, and then ac[0] < 0 |
| `Levinson.ZeroAfterOneStep` | packages/PhhIms/app/jni/rnnoise/src/celt_lpc.c:61-82 | With a negative ac[0] and p >= 2 that is so after one step if and only if ac[1] is ac[0] or -ac[0] |
| `Levinson.ZeroDivisorReached` | packages/PhhIms/app/jni/rnnoise/src/celt_lpc.c:61-82 | So it is for ac = -1, 1, ... and every p >= 2 |
| `Levinson.LevinsonStep` | packages/PhhIms/app/jni/rnnoise/src/celt_lpc.c:55-73 | A reflection turns the solution of order m into the solution of order m + 1 and multiplies the prediction error by 1 - r^2 |
| `Levinson.ReflectInPlace` | packages/PhhIms/app/jni/rnnoise/src/celt_lpc.c:63-71 | The mirrored in-place update, its middle element included, is the reflection |
| `Levinson.ReflectionSum` | packages/PhhIms/app/jni/rnnoise/src/celt_lpc.c:57-60 | The sum is row i of the normal equations plus ac[i+1] |
| `Levinson.StableReflection` | packages/PhhIms/app/jni/rnnoise/src/celt_lpc.c:61-73 | A positive error that stays positive means r^2 < 1 |
| `Iir.CeltIirPlain` | packages/PhhIms/app/jni/rnnoise/src/celt_lpc.c:131-146 | The SMALL_FOOTPRINT branch computes y[i] = x[i] - sum of den[j] y[i-1-j] over the history mem, and leaves the last outputs in mem; also in place |
| `Iir.CeltIir` | packages/PhhIms/app/jni/rnnoise/src/celt_lpc.c:148-194 | The unrolled branch, which reads over samples not yet written and patches the result, for every N and also in place: outputs and memory as functions of the input |
| `Iir.IirBlock` | packages/PhhIms/app/jni/rnnoise/src/celt_lpc.c:158-184 | One unrolled block of four with its den[0..2] patches produces four outputs of the recursion |
| `Iir.IirTail` | packages/PhhIms/app/jni/rnnoise/src/celt_lpc.c:185-192 | The samples after the last block of four |
| `Iir.UnrolledIsRecurrence` | packages/PhhIms/app/jni/rnnoise/src/celt_lpc.c:131-195 | For N a multiple of 4 the unrolled branch yields the same output as the plain recurrence |
| `Iir.FinalMemory` | packages/PhhIms/app/jni/rnnoise/src/celt_lpc.c:193-194 | Both branches leave output N-1-j in mem[j] |
| `Iir.FirstTailSample` | packages/PhhIms/app/jni/rnnoise/src/celt_lpc.c:185-192 | The first sample past a multiple of four comes out as x plus, not minus, the feedback |
| `Iir.AgreeExactlyOnMultiplesOfFour` | packages/PhhIms/app/jni/rnnoise/src/celt_lpc.c:131-195 | For order a multiple of 4 with 4 <= ord <= N: the two branches agree on all inputs if and only if N is a multiple of 4; otherwise a unit impulse tells them apart |
| `Iir.FeedBack` | packages/PhhIms/app/jni/rnnoise/src/celt_lpc.c:135-139 | One sample minus the feedback over the memory |
| `Iir.Shift` | packages/PhhIms/app/jni/rnnoise/src/celt_lpc.c:140-144 | The memory moves by one and takes the new sample in front |
| `Iir.LoadHistory` | packages/PhhIms/app/jni/rnnoise/src/celt_lpc.c:150-157 | The buffer starts with the negated history, oldest first, and zeros |
| `Iir.PatchUp` | packages/PhhIms/app/jni/rnnoise/src/celt_lpc.c:168-183 | The patches add exactly the feedback of the samples that were still zero in the kernel |
| `Iir.TailSample` | packages/PhhIms/app/jni/rnnoise/src/celt_lpc.c:187-191 | One sample of the tail loop subtracts the kernel's sum |
| `Iir.SaveMemory` | packages/PhhIms/app/jni/rnnoise/src/celt_lpc.c:193-194 | The last outputs, newest first |
| `BestPitch.FindBestPitch` | packages/PhhIms/app/jni/rnnoise/src/pitch.c:46-104 | best_pitch[0] is the earliest maximiser of xcorr[i]^2 / Syy_i over the positive xcorr[i], best_pitch[1] the earliest maximiser of the rest; with one positive entry the second is 0, with none they are 0 and 1 |
| `BestPitch.PairUnique` | packages/PhhIms/app/jni/rnnoise/src/pitch.c:46-104 | That description leaves no choice |
| `BestPitch.SlideEnergy` | packages/PhhIms/app/jni/rnnoise/src/pitch.c:101-102 | The running energy is always 1 plus the energy of the window, so the clamp at 1 never acts |
| `BestPitch.CrossMultiplied` | packages/PhhIms/app/jni/rnnoise/src/pitch.c:84-86 | The division-free comparison of scaled correlations compares xcorr^2 / Syy |
| `BestPitch.Advance` | packages/PhhIms/app/jni/rnnoise/src/pitch.c:71-100 | One positive correlation moves the two candidates to those of one more lag, by the outcome of the two tests |
| `PitchSearch.PitchSearch` | packages/PhhIms/app/jni/rnnoise/src/pitch.c:283-385 | The answer is that of the coarse search on decimated signals, the fine search around its two candidates and the interpolation, and lies between 0 and max_pitch - 2 |
| `PitchSearch.SearchOptimal` | packages/PhhIms/app/jni/rnnoise/src/pitch.c:340-384 | To within one sample the answer is the earliest strongest lag with positive correlation among those within two of a coarse candidate; it is 0 exactly when that lag is 0 or there is none |
| `PitchSearch.InterpolateAtPeak` | packages/PhhIms/app/jni/rnnoise/src/pitch.c:368-383 | At a peak the interpolation moves towards the larger neighbour and is odd under mirroring |
| `PitchSearch.InterpolateParabola` | packages/PhhIms/app/jni/rnnoise/src/pitch.c:368-383 | On every parabola with a top it moves by one if and only if the top is more than 7/26 of a step away, and to that side |
| `PitchSearch.RefinedMoves` | packages/PhhIms/app/jni/rnnoise/src/pitch.c:368-384 | pitch_search then moves the doubled lag to the other side |
| `PitchSearch.CandidatesAre` | packages/PhhIms/app/jni/rnnoise/src/pitch.c:344-361 | What a candidate of the fine search is, and its strength times one plus the energy of its window is its squared correlation |
| `PitchSearch.FineLagIs` | packages/PhhIms/app/jni/rnnoise/src/pitch.c:344-361 | A lag within two of a doubled candidate has its correlation, but at least -1; any other 0 |
| `PitchSearch.FineSearch` | packages/PhhIms/app/jni/rnnoise/src/pitch.c:344-361 | Lags near a candidate get their correlation floored at -1, all others 0 |
| `RemoveDoubling.RemoveDoubling` | packages/PhhIms/app/jni/rnnoise/src/pitch.c:423-526 | The period is that of the smallest accepted fraction 1/2 to 1/15, or the original one, offset by interpolation; it lies in [minperiod, max(minperiod, maxperiod - 1)] and the gain strictly between -1 and 1; all accesses stay in the buffer, which needs one sample after the window when a halved period can be 0 |
| `RemoveDoubling.EnergyTable` | packages/PhhIms/app/jni/rnnoise/src/pitch.c:446-454 | yy_lookup[i] is the exact energy of the window i samples back, so the clamp at 0 never acts |
| `RemoveDoubling.Examine` | packages/PhhIms/app/jni/rnnoise/src/pitch.c:469-497 | One fraction is judged by its mean correlation, its mean energy, and the threshold with the credit for the previous frame; the branch at 495 is never taken |
| `RemoveDoubling.FractionsShrink` | packages/PhhIms/app/jni/rnnoise/src/pitch.c:466-468 | The fractions of a period shrink with k |
| `RemoveDoubling.BreakIsComplete` | packages/PhhIms/app/jni/rnnoise/src/pitch.c:467-468 | Leaving the loop at the first fraction that is too short misses no acceptable fraction |
| `RemoveDoubling.PartnerRange` | packages/PhhIms/app/jni/rnnoise/src/pitch.c:469-479 | The second lag of every fraction lies in the history |
| `RemoveDoubling.LagsNearest` | packages/PhhIms/app/jni/rnnoise/src/pitch.c:466-479 | Both lags are multiples of t0/k to the nearest sample; for k = 2 the second is 3/2 of the period if that lies in the history |
| `RemoveDoubling.SecondCheckCoprime` | packages/PhhIms/app/jni/rnnoise/src/pitch.c:422-422 | The table gives for each k the smallest multiple above 1 that has no factor in common with k |
| `RemoveDoubling.AcceptedExactly` | packages/PhhIms/app/jni/rnnoise/src/pitch.c:484-498 | A fraction is accepted if and only if it is long enough, its gain is above the floor of 0.3 or 0.4, and with the credit above 0.7 or 0.85 of the gain at the original period |
| `RemoveDoubling.FinalGainIs` | packages/PhhIms/app/jni/rnnoise/src/pitch.c:505-521 | The gain is the smaller of the winner's gain and correlation over energy plus one, which counts as 1 from equality on and as 0 below zero |
| `RemoveDoubling.PeriodicGain` | packages/PhhIms/app/jni/rnnoise/src/pitch.c:505-525 | A window that repeats after both lags of the winning fraction keeps its gain, E / sqrt(1 + E^2) for its energy E |
| `RemoveDoubling.PeriodMoves` | packages/PhhIms/app/jni/rnnoise/src/pitch.c:511-525 | Around a parabola's top the period moves towards the top, and not below the smallest period |
| `Inequalities.FromForms` | packages/PhhIms/app/jni/rnnoise/src/pitch.c:416-419 | A quadratic form that is nowhere negative bounds its middle coefficient |
| `RemoveDoubling.CauchySchwarz` | packages/PhhIms/app/jni/rnnoise/src/pitch.c:416-419 | The square of a correlation is at most the product of the two energies |
| `RemoveDoubling.GainsBelowOne` | packages/PhhIms/app/jni/rnnoise/src/pitch.c:416-419 | Hence every gain considered is strictly between -1 and 1 |
| `RemoveDoubling.AnswerRange` | packages/PhhIms/app/jni/rnnoise/src/pitch.c:505-525 | Range of period and gain, and the gain is negative exactly when the original period was kept although it correlates negatively |
| `Downsample.CeltFir5` | packages/PhhIms/app/jni/rnnoise/src/pitch.c:106-145 | A five-tap filter over the delay line and the input, also in place; the delay line ends with the last five samples |
| `Downsample.PitchDownsample` | packages/PhhIms/app/jni/rnnoise/src/pitch.c:148-216 | For one channel or two, of even or odd length, the output is the halved signal whitened with its own lag-windowed, pulled-in predictor and then 0.8 of the previous sample added |
| `Downsample.ZeroIsCascade` | packages/PhhIms/app/jni/rnnoise/src/pitch.c:209-215 | Filtering with the five combined coefficients is whitening first and then adding the zero |
| `PitchTracker.PitchState.Track` | packages/PhhIms/app/jni/rnnoise/src/denoise.c:325-338 | Over any run of frames: the period found lies in [60, 767], it is the answer to the question posed by the new buffer and the previous answer, and the window fetched is the signal heard so far, one period back |
| `PitchTracker.AskedInNumbers` | packages/PhhIms/app/jni/rnnoise/src/denoise.c:327-335 | Template, lags, periods and first guess of one frame in numbers |
| `PitchTracker.PitchState.Hear` | packages/PhhIms/app/jni/rnnoise/src/denoise.c:325-326 | The buffer always holds the last 1728 samples of everything heard, silence before the first |
| `PitchTracker.PitchState.WindowBack` | packages/PhhIms/app/jni/rnnoise/src/denoise.c:337-338 | Every read of the pitch buffer is in range and gives the sample one period before |
| `BestPitch.WindowEnergy` | packages/PhhIms/app/jni/rnnoise/src/pitch.c:69-70 | 1 plus the energy of the first window |
| `BestPitch.BeatsSlot` | packages/PhhIms/app/jni/rnnoise/src/pitch.c:84-86 | The test against a candidate is true for an empty slot and compares strengths otherwise |
| `PitchSearch.Decimate` | packages/PhhIms/app/jni/rnnoise/src/pitch.c:304-308 | Every second sample |
| `Downsample.Halve` | packages/PhhIms/app/jni/rnnoise/src/pitch.c:173-175 | Smoothing and decimation by two, the first sample by its own formula |
| `Downsample.HalvedBand` | packages/PhhIms/app/jni/rnnoise/src/pitch.c:173-175 | The smoothing keeps a constant and removes an alternating signal, but for the first sample |
| `Downsample.TwoChannels` | packages/PhhIms/app/jni/rnnoise/src/pitch.c:176-181 | Two channels are added |
| `Downsample.AddHalved` | packages/PhhIms/app/jni/rnnoise/src/pitch.c:176-181 | The second channel is added in the same way |
| `Downsample.LagWindow` | packages/PhhIms/app/jni/rnnoise/src/pitch.c:186-201 | Noise floor on lag 0, lag window on the others |
| `Downsample.LagFactors` | packages/PhhIms/app/jni/rnnoise/src/pitch.c:186-201 | The five factors are 1.0001, 0.999936, 0.999744, 0.999424 and 0.998976 |
| `Downsample.Expand` | packages/PhhIms/app/jni/rnnoise/src/pitch.c:204-208 | Coefficient i times 0.9 to the power i + 1 |
| `Downsample.ExpandFactors` | packages/PhhIms/app/jni/rnnoise/src/pitch.c:204-208 | The four factors are 0.9, 0.81, 0.729 and 0.6561 |
| `PitchTracker.PitchState.constructor` | packages/PhhIms/app/jni/rnnoise/src/denoise.c:264-266 | Empty buffer, no period, no gain |
| `Bands.ComputeBandCorr` | packages/PhhIms/app/jni/rnnoise/src/denoise.c:125-148 | Every band is the sum over its triangle of Re X_k conj P_k, the two end bands doubled, for any band edges |
| `Bands.ComputeBandEnergy` | packages/PhhIms/app/jni/rnnoise/src/denoise.c:100-123 | The same with P = X, by its own loops; no band energy is negative |
| `Bands.InterpBandGain` | packages/PhhIms/app/jni/rnnoise/src/denoise.c:150-163 | Bin start + j of band i gets the mix of its two gains; bins past the last edge keep what the caller had, although the clearing covers only a quarter of the bins |
| `Bands.Ramp` | packages/PhhIms/app/jni/rnnoise/src/denoise.c:150-163 | Within a band the gain starts at the band's own and runs in equal steps towards the next band's |
| `Bands.OneBin` | packages/PhhIms/app/jni/rnnoise/src/denoise.c:100-148 | A spectrum with one bin: its band collects it by the part of the way left to the next edge, the next band by the part done, doubled at the two ends of the table, and no other band sees it |
| `Bands.Adjoint` | packages/PhhIms/app/jni/rnnoise/src/denoise.c:100-163 | For any edges, gains and spectrum: the interpolated gains weighted with the spectrum add up to the gains weighted with the band values, end bands halved |
| `Bands.Conservation` | packages/PhhIms/app/jni/rnnoise/src/denoise.c:100-123 | The band values, end bands halved, add up to the energy of the covered bins |
| `Bands.MixBetween` | packages/PhhIms/app/jni/rnnoise/src/denoise.c:159-160 | Every interpolated gain lies between its two band gains |
| `Bands.CorrelationBound` | packages/PhhIms/app/jni/rnnoise/src/denoise.c:343-343 | The square of a band correlation is at most the product of the band energies, so the normalised correlation is strictly between -1 and 1 |
| `Bands.EbandIsBands` | packages/PhhIms/app/jni/rnnoise/src/denoise.c:73-76 | The table of the code has 22 edges and covers 400 bins |
| `Bands.EbandWidths` | packages/PhhIms/app/jni/rnnoise/src/denoise.c:73-76 | In steps of 200 Hz the bands widen from 1 to 22 |
| `Bands.CorrBand` | packages/PhhIms/app/jni/rnnoise/src/denoise.c:128-141 | One band adds its falling weights to its own sum and its rising weights to the next |
| `Bands.EnergyPass` | packages/PhhIms/app/jni/rnnoise/src/denoise.c:103-116 | One band adds its falling weights to its own sum and its rising weights to the next |
| `Bands.InterpBand` | packages/PhhIms/app/jni/rnnoise/src/denoise.c:153-162 | One band writes its own bins and no others |
| `Rnn.TansigApprox` | packages/PhhIms/app/jni/rnnoise/src/rnn.c:41-67 | Always in [-1, 1], for any table with values in [0, 1] |
| `Rnn.TableIndexRange` | packages/PhhIms/app/jni/rnnoise/src/rnn.c:61-62 | The table index is at most 200 and the rest at most 0.02 |
| `Rnn.TansigOdd` | packages/PhhIms/app/jni/rnnoise/src/rnn.c:41-67 | The approximation is odd |
| `Rnn.TansigAtTable` | packages/PhhIms/app/jni/rnnoise/src/rnn.c:41-67 | At the 200 arguments of the table below 8 the approximation is the table, beyond 8 and -8 it is 1 and -1 |
| `Rnn.TansigBetween` | packages/PhhIms/app/jni/rnnoise/src/rnn.c:61-66 | Between them it is the nearest entry, moved by the correction |
| `Rnn.AdditionFormula` | packages/PhhIms/app/jni/rnnoise/src/rnn.c:61-66 | The correction is the addition formula of the hyperbolic tangent up to a term in the cube of the step |
| `Rnn.SigmoidSymmetric` | packages/PhhIms/app/jni/rnnoise/src/rnn.c:69-72 | sigmoid(-x) = 1 - sigmoid(x) |
| `Rnn.SigmoidAtTable` | packages/PhhIms/app/jni/rnnoise/src/rnn.c:69-72 | At twice the arguments of the table it is half of one plus the table, beyond 16 and -16 it is 1 and 0 |
| `Rnn.ActivationLaws` | packages/PhhIms/app/jni/rnnoise/src/rnn.c:94-107 | The layer's activation is the one it names: odd, summing to one, or splitting x |
| `Rnn.ComputeDense` | packages/PhhIms/app/jni/rnnoise/src/rnn.c:79-107 | Every access is to an element of its array if and only if the layer has no neurons, or its inputs and neurons are no more than the arrays hold; then the outputs are the activated scaled sums, in the range of the activation |
| `Rnn.ComputeGru` | packages/PhhIms/app/jni/rnnoise/src/rnn.c:109-156 | No input is read behind the end of its array if and only if the layer has no neurons or no more inputs than that; then the in-place update equals the simultaneous equations of the unit, every right-hand side about the old state |
| `Rnn.UpdateGate` | packages/PhhIms/app/jni/rnnoise/src/rnn.c:120-153 | With a gate sum of 4096 or more a neuron keeps its state, with -4096 or less it takes the candidate |
| `Rnn.ResetGate` | packages/PhhIms/app/jni/rnnoise/src/rnn.c:140-147 | With all reset gates at 0 the candidate does not see the old state, with all at 1 it sees all of it |
| `Rnn.GruWeights` | packages/PhhIms/app/jni/rnnoise/src/rnn.c:120-147 | Which of the weights and biases stands for which pair of neurons, for both gates and the candidate |
| `Rnn.DenseWeights` | packages/PhhIms/app/jni/rnnoise/src/rnn.c:86-94 | Which weight of a dense layer stands for which input and output |
| `Rnn.GruRunRange` | packages/PhhIms/app/jni/rnnoise/src/rnn.c:109-156 | From the zero state, over every input sequence: tanh states stay within 1 of zero, sigmoid states in [0, 1], relu states at least 0 |
| `Rnn.RNNState.ComputeRnn` | packages/PhhIms/app/jni/rnnoise/src/rnn.c:160-178 | For every model that the reader makes: all accesses are to elements of their arrays, and all reads to written ones, if and only if the layers fit each other, the 42 features, the 22 gains and the one voice activity; then each layer reads the new state of the layers before it and its own old state, outputs are in the range of their activations and the state ranges are kept |
| `Rnn.RnnStepRange` | packages/PhhIms/app/jni/rnnoise/src/rnn.c:160-178 | A frame keeps all three states in the ranges of their activations |
| `Rnn.Lookup` | packages/PhhIms/app/jni/rnnoise/src/rnn.c:61-65 | The corrected table value stays in [-1, 1] |
| `Rnn.SigmoidApprox` | packages/PhhIms/app/jni/rnnoise/src/rnn.c:69-72 | Always in [0, 1] |
| `Rnn.ReluApprox` | packages/PhhIms/app/jni/rnnoise/src/rnn.c:74-77 | The positive part |
| `Rnn.AddColumn` | packages/PhhIms/app/jni/rnnoise/src/rnn.c:124-127 | A column of the weight matrix against a vector, inside it if and only if the column is no longer |
| `Rnn.AddGatedColumn` | packages/PhhIms/app/jni/rnnoise/src/rnn.c:146-147 | The same with the state scaled by the reset gates |
| `Rnn.ComputeGate` | packages/PhhIms/app/jni/rnnoise/src/rnn.c:120-139 | Update or reset gates of all neurons, from the old state |
| `Rnn.ComputeOutput` | packages/PhhIms/app/jni/rnnoise/src/rnn.c:140-153 | New state of all neurons, from the old state and the gates |
| `Rnn.Joined` | packages/PhhIms/app/jni/rnnoise/src/rnn.c:168-175 | The concatenation of three vectors |
| `Rnn.BlendRange` | packages/PhhIms/app/jni/rnnoise/src/rnn.c:152-152 | The blend of two values of an activation's range stays in it |
| `Rnn.RNNState.constructor` | packages/PhhIms/app/jni/rnnoise/src/denoise.c:270-272 | All three states start at zero |
| `ModelFile.ScanPrinted` | packages/PhhIms/app/jni/rnnoise/src/rnn_reader.c:72-78 | A printed integer is scanned back, and the scan stops right behind it |
| `ModelFile.TextFile.PrintVector` | packages/PhhIms/app/jni/rnnoise/training/dump_rnn.py:15-34 | The text written for a vector |
| `ModelFile.TextFile.PrintLayer` | packages/PhhIms/app/jni/rnnoise/training/dump_rnn.py:36-52 | The text written for a layer, with the division by three of Python 2 |
| `ModelFile.TextFile.DumpModel` | packages/PhhIms/app/jni/rnnoise/training/dump_rnn.py:83-94 | Header and all layers that have weights, in order |
| `ModelFile.InputFile.InputArray` | packages/PhhIms/app/jni/rnnoise/src/rnn_reader.c:95-109 | Exactly len integers are scanned, each converted to signed char, or the read fails |
| `ModelFile.InputFile.InputDense` | packages/PhhIms/app/jni/rnnoise/src/rnn_reader.c:111-118 | Dimensions, activation, weights, bias, in this order and each within its limits |
| `ModelFile.InputFile.InputGru` | packages/PhhIms/app/jni/rnnoise/src/rnn_reader.c:120-128 | The same with the recurrent weights between |
| `ModelFile.InputFile.ModelFromFile` | packages/PhhIms/app/jni/rnnoise/src/rnn_reader.c:45-138 | The whole reader as a function of the text |
| `ModelFile.RoundTrip` | packages/PhhIms/app/jni/rnnoise/src/rnn_reader.c:45-138 | At character level, for every network of six layers in the reader's order: what is printed is read back as the quantised network with weights as signed chars when no dimension exceeds 128, and refused otherwise |
| `ModelFile.RoundTripExact` | packages/PhhIms/app/jni/rnnoise/src/rnn_reader.c:72-135 | What is read is exactly what was printed if and only if no dimension exceeds 128 and no weight is at or below -128.5/256 |
| `ModelFile.LayerOrder` | packages/PhhIms/app/jni/rnnoise/src/rnn_reader.c:130-135 | The six layers by their place in the file |
| `ModelFile.DenseText` | packages/PhhIms/app/jni/rnnoise/src/rnn_reader.c:111-118 | The text of a small dense layer, character by character, and what is read from it |
| `ModelFile.GruText` | packages/PhhIms/app/jni/rnnoise/src/rnn_reader.c:120-128 | The text of a small recurrent layer: kernel, recurrent kernel, bias, and what is read from it |
| `ModelFile.KeptExactly` | packages/PhhIms/app/jni/rnnoise/training/dump_rnn.py:20-21 | A weight survives exactly when it is above -128.5/256: the printer clips only from above and the reader wraps |
| `ModelFile.NegativeWeightWraps` | packages/PhhIms/app/jni/rnnoise/training/dump_rnn.py:20-21 | The concrete case: -129/256 comes back as 127/256 |
| `ModelFile.QuantiseError` | packages/PhhIms/app/jni/rnnoise/training/dump_rnn.py:20-21 | A printed weight is within half a step of the trained one if and only if that does not exceed 127.5/256 |
| `ModelFile.HalvesAway` | packages/PhhIms/app/jni/rnnoise/training/dump_rnn.py:20-21 | Halves are rounded away from zero |
| `ModelFile.AcceptedIsShaped` | packages/PhhIms/app/jni/rnnoise/src/rnn_reader.c:45-138 | Whatever file is accepted, every layer has as many weights as its dimensions say and at most 128 neurons, and every weight and bias of all six layers is a signed char |
| `ModelFile.AcceptedNeedNotFit` | packages/PhhIms/app/jni/rnnoise/src/rnn_reader.c:80-135 | But the layers need not fit: printed networks with any number of gains and voice activities up to 128 are accepted, and fit if and only if there are at most 22 gains and one voice activity |
| `ModelFile.InputFile.InputVal` | packages/PhhIms/app/jni/rnnoise/src/rnn_reader.c:72-78 | A number from 0 to 128, or a refusal |
| `ModelFile.InputFile.InputShape` | packages/PhhIms/app/jni/rnnoise/src/rnn_reader.c:80-93 | Two dimensions and an activation, codes 1 and 2 being sigmoid and relu and every other code tanh |
| `ModelFile.ReadHeader` | packages/PhhIms/app/jni/rnnoise/src/rnn_reader.c:49-50 | The printed header is accepted as version 1 |
| `ModelFile.ReadVector` | packages/PhhIms/app/jni/rnnoise/src/rnn_reader.c:95-109 | A printed vector of any length is read back, and the scan stops where the next begins |
| `ModelFile.ReadPrintedDense` | packages/PhhIms/app/jni/rnnoise/src/rnn_reader.c:111-118 | A printed dense layer is read back if and only if its dimensions fit |
| `ModelFile.ReadPrintedGru` | packages/PhhIms/app/jni/rnnoise/src/rnn_reader.c:120-128 | A printed recurrent layer likewise |
| `StreamWorker.RunKeeps` | audio/impl/StreamOut.cpp:87-147 | All invariants below hold in every state of every interleaving of client, worker and closer, for playback and capture and for every version |
| `StreamWorker.OneStatusEach` | audio/impl/StreamOut.cpp:122-142 | Every command gets exactly one status, in order and with its own replyTo, save the outstanding one |
| `StreamWorker.StatusWriteSucceeds` | audio/impl/StreamOut.cpp:140-142 | With one command outstanding the status write never finds the queue full |
| `StreamWorker.CommandWriteSucceeds` | audio/impl/StreamOut.cpp:370-370 | Nor does the command write of an idle client |
| `StreamWorker.BytesConserved` | audio/impl/StreamOut.cpp:87-99 | Playback: bytes given to the hardware followed by the queue are the bytes written. Capture: bytes read followed by the queue are the bytes delivered, and the counts of the statuses that are OK add up to them |
| `StreamWorker.WriteHandsOver` | audio/impl/StreamOut.cpp:87-99 | In every run a WRITE that is done has handed the hardware at least all the bytes the client had put before it |
| `StreamWorker.CallsReported` | audio/impl/StreamIn.cpp:84-104 | In every run the hardware is given all that was queued, or asked for the smaller of the request and the free space, and the statuses of the transfers are its answers in order |
| `StreamWorker.ReplyOfRun` | audio/impl/StreamIn.cpp:84-104 | In every run the number in the worker's reply is that of its last status, and the status of every failed read repeats the number of the status before it |
| `StreamWorker.AllCountsRight` | audio/impl/StreamIn.cpp:95-103 | Adding up all counts, those of failed reads too, gives the bytes delivered if and only if every failed read came right after a status with the number 0; a failed write always reports 0 |
| `StreamWorker.FailureReports` | audio/impl/StreamIn.cpp:84-104 | A failed read reports the number left in the reply, a failed write (StreamOut.cpp:89-90) reports 0 |
| `StreamWorker.FailedReadRepeatsCount` | audio/impl/StreamIn.cpp:84-104 | A run in which a read of three bytes is followed by a failed read that reports three again |
| `StreamWorker.CallsAfterClose` | audio/impl/StreamOut.cpp:318-330 | In every run the hardware is called at most once after its stream is closed, and never in any run exactly for the versions up to 5, which close it after the join |
| `StreamWorker.CallAfterClose` | audio/impl/StreamOut.cpp:318-330 | A run of version 6 or later in which a command taken before close() calls the hardware after it |
| `StreamWorker.DataOperationsSucceed` | audio/impl/StreamIn.cpp:84-101 | What the worker measured is still there, or still free, when it moves the data: neither data operation fails |
| `StreamWorker.ShutdownProgress` | audio/impl/StreamOut.cpp:112-147 | After close() a worker is never stuck and each of its steps brings it closer to its exit: no shutdown is lost |
| `StreamWorker.JoinReturns` | audio/impl/StreamOut.cpp:159-166 | After close(), whatever client and hardware do, a started worker takes at most seven more steps and then has exited: the join returns |
| `StreamWorker.ClientNotStuck` | audio/impl/StreamOut.cpp:112-147 | While a client awaits an answer and the worker has not exited, one of the two can go on: no wake-up is lost |
| `StreamWorker.StatusesOfExited` | audio/impl/StreamOut.cpp:112-147 | When the worker has exited, every command sent has a status, save one left in the command queue |
| `StreamWorker.AnsweredAfterExit` | audio/impl/StreamOut.cpp:112-147 | A client with a command outstanding after the worker has exited can still get its status if and only if the command queue is empty; no continuation answers what is in the queue |
| `StreamWorker.CommandLeftBehind` | audio/impl/StreamOut.cpp:112-147 | A run in which a command sent while the worker shuts down stays in the queue |
| `StreamLifecycle.Device.OpenStreamCore` | audio/impl/Device.cpp:157-231 | A stream is made and counted exactly when the arguments convert and the hardware opens it; the count is the number of open streams |
| `StreamLifecycle.Device.CloseStream` | audio/impl/Device.cpp:62-72 | The count drops by one and the fatal check at zero cannot fire |
| `StreamLifecycle.Device.DoClose` | audio/impl/Device.cpp:558-562 | The device is closed at most once, and only while no stream is open |
| `StreamLifecycle.StreamOut.Close` | audio/impl/StreamOut.cpp:318-330 | The first call stops the worker and, from version 6 on, closes the stream of the hardware; every later call changes nothing |
| `StreamLifecycle.StreamOut.Destroy` | audio/impl/StreamOut.cpp:159-179 | However often close() was called before, after destruction the stream of the hardware has been closed exactly once, in every version |
| `StreamLifecycle.StreamOut.PrepareForWriting` | audio/impl/StreamOut.cpp:349-434 | It succeeds exactly when not prepared before, the product of the sizes is positive and at most MAX_BUFFER_SIZE, and everything can be created; the queue then has the asked size without 32-bit wrap-around |
| `StreamWorker.StepKeeps` | audio/impl/StreamOut.cpp:112-147 | Each single step keeps the invariants |
| `StreamWorker.MoveKeeps` | audio/impl/StreamIn.cpp:84-104 | So does moving the data, whatever the hardware answers, a failed read keeping the number left in the reply |
| `StreamWorker.CloserKeeps` | audio/impl/StreamOut.cpp:318-330 | So do preparing, the stop flag, the wake-up, and closing the stream of the hardware at the place each version closes it |
| `StreamLifecycle.AnalyzeStatus` | audio/impl/include/core/default/Util.h:50-65 | OK exactly for status 0, a result of its own exactly for -EINVAL, -ENODEV and -ENOSYS, and an invalid state for everything else |
| `StreamLifecycle.BufferFits` | audio/impl/StreamOut.cpp:378-378 | The division test admits exactly the sizes whose product is small enough |
| `StreamLifecycle.Device.constructor` | audio/impl/Device.cpp:50-50 | Open, with no streams |
| `StreamLifecycle.StreamOut.constructor` | audio/impl/StreamOut.cpp:151-157 | Not stopped, not prepared |
| `EchoCanceler.WebRtcEchoCanceler.Process` | packages/PhhIms/app/jni/webrtc_aec_jni.cpp:86-146 | Return codes; the engine is always in the state of one that was shown the frames of the log; otherwise state, byte buffer and result are those of the frame-by-frame specification, and every access to the array is inside it |
| `EchoCanceler.SplitCalls` | packages/PhhIms/app/jni/webrtc_aec_jni.cpp:102-145 | Two calls on the parts of a buffer cut at a frame boundary do what one call on the whole does |
| `EchoCanceler.OneFrameKeeps` | packages/PhhIms/app/jni/webrtc_aec_jni.cpp:109-143 | Every frame keeps the history facts: at most 100 queued frames, all of processing size, the newest in order; rendered = fed + dropped + queued; fed frames are an in-order subsequence; each analysis shows a queued frame when frames were waiting and silence exactly when the queue was empty; every processed near-end frame directly follows one far-end analysis |
| `EchoCanceler.FramesReplay` | packages/PhhIms/app/jni/webrtc_aec_jni.cpp:102-145 | Over any buffer: engine and resamplers are in the state of ones that were shown the frames of the log in order and nothing else, and what the log says came back is what they gave |
| `EchoCanceler.CaptureByHand` | packages/PhhIms/app/jni/webrtc_aec_jni.cpp:120-136 | A near-end frame call by call: far-end analysis, resampling, processing, resampling back, bytes and codes |
| `EchoCanceler.RenderByHand` | packages/PhhIms/app/jni/webrtc_aec_jni.cpp:137-142 | A far-end frame call by call: resampling and the queue of at most 100 |
| `EchoCanceler.Formats` | packages/PhhIms/app/jni/webrtc_aec_jni.cpp:29-58 | Ten milliseconds at the rate of the caller and at that of the engine, for each rate |
| `EchoCanceler.LittleEndian` | packages/PhhIms/app/jni/webrtc_aec_jni.cpp:111-116 | The first byte of a sample is the low one |
| `EchoCanceler.QueuedKeeps` | packages/PhhIms/app/jni/webrtc_aec_jni.cpp:196-201 | Queueing, with the drop of the oldest at 100, keeps them |
| `EchoCanceler.FedKeeps` | packages/PhhIms/app/jni/webrtc_aec_jni.cpp:203-228 | Feeding the oldest frame, or silence, keeps them |
| `EchoCanceler.WebRtcEchoCanceler.QueueRenderFrame` | packages/PhhIms/app/jni/webrtc_aec_jni.cpp:196-201 | The queue operation on the object |
| `EchoCanceler.WebRtcEchoCanceler.FeedNextRenderFrame` | packages/PhhIms/app/jni/webrtc_aec_jni.cpp:203-228 | The feed operation on the object; afterwards there is a render reference |
| `EchoCanceler.WebRtcEchoCanceler.ProcessCaptureFrame` | packages/PhhIms/app/jni/webrtc_aec_jni.cpp:230-255 | Called only with a render reference, so the early return is never taken |
| `EchoCanceler.WebRtcEchoCanceler.constructor` | packages/PhhIms/app/jni/webrtc_aec_jni.cpp:29-78 | A supported rate gives a working object with an empty queue, any other one that refuses every call |
| `EchoCanceler.WebRtcEchoCanceler.PrepareProcessingFrame` | packages/PhhIms/app/jni/webrtc_aec_jni.cpp:159-177 | The frame at processing rate, through the resampler of its direction when the rates differ |
| `EchoCanceler.WebRtcEchoCanceler.RestoreInputRateCaptureFrame` | packages/PhhIms/app/jni/webrtc_aec_jni.cpp:179-194 | The way back to the input rate |
| `EchoCanceler.WebRtcEchoCanceler.FrameAt` | packages/PhhIms/app/jni/webrtc_aec_jni.cpp:111-142 | One frame of the byte array is replaced by its result, or nothing is written on an error |
| `EchoCanceler.WebRtcEchoCanceler.ProcessFrames` | packages/PhhIms/app/jni/webrtc_aec_jni.cpp:109-143 | The loop over a buffer is the frame-by-frame specification |
| `EchoCanceler.WebRtcEchoCanceler.RegionFrame` | packages/PhhIms/app/jni/webrtc_aec_jni.cpp:109-143 | One frame of a region of which the frames before are done |
| `EchoCanceler.DecodeEncode` | packages/PhhIms/app/jni/webrtc_aec_jni.cpp:111-133 | Samples survive the byte buffer |

## Left out

- Floating-point rounding, infinities and not-a-number: everything is stated over exact reals.
- The FIXED_POINT branches, and the assembly and SIMD replacements of the kernels.
- opus_fft_alloc_twiddles with a shared base table (shift > 0), memory shortage and the free functions.
- sin, cos, sqrt and the tanh table themselves: they enter as the hypotheses named above; that the C library and the generated
  tables meet them is not proved.
- Levinson.CeltLpc: in the step that ends the recursion the error may be zero or negative, and then nothing is said about that one
  reflection.
- Correlation.XcorrKernel: requires len >= 3 as the assertion of the code does; PitchXcorr, CeltFir and CeltAutocorr inherit it only
  where they call the kernel.
- PitchSearch.PitchSearch: requires max_pitch >= 4, and len >= 12 once the kernel is reached, which are the assertions of the
  functions it calls.
- RemoveDoubling.RemoveDoubling: requires maxperiod >= 2, below which the code indexes its tables negatively, and periods that are
  not negative.
- OverlapAdd.DenoiseState.ProcessFrame: what network, pitch filter and gains make of a spectrum is a parameter; pitch_filter, the
  cepstral features and the gain smoothing are not modelled.
- Bands.InterpBandGain: bin 120, of which one byte in four is cleared, takes an arbitrary value before it is overwritten.
- Rnn.RNNState.ComputeRnn: of a model whose layers do not fit nothing is claimed beyond that; a model with fewer than 22 gains
  leaves the other gains as the caller had them, and what the caller then does with those is not modelled.
- ModelFile: the C source text that dump_rnn.py writes beside the text file, integers outside the range of int, and read errors of
  the file system.
- StreamWorker: the client is not part of the repository's code; it is assumed to have one command outstanding at a time. The
  hardware may fail but not accept or deliver more bytes than asked. Of the query replies only the number
  they leave in the status is modelled, as any number; so is what a new worker's status holds, which the code does not set.
- StreamLifecycle: other methods of streams and devices, callbacks, parameters and the conversion of arguments; their outcome is a
  parameter where it matters.
- EchoCanceler: engine, high-pass filter and resamplers are opaque functions of one state; JNI access is a byte array; the mutex is
  not modelled because every call holds it for its whole frame loop.
- EchoCanceller3Config, the JSON configuration, the pass-through HAL methods, the training scripts and the build scripts.
