# Vowel synthesiser and formant analyser, modelled in Dafny

The application synthesises vowels and shows the formants (vocal-tract
resonances) of the sound it hears. This project models the logic under its
user interface and proves properties of that model. It covers four parts:

- **Waveform ring buffer** (`VowelSynth`, src/vowelSynth.ts).
  - The audio worklet posts blocks of at most 1024 samples.
  - `captureWaveform` writes each block round an 80000-slot circular buffer and advances a write index.
  - `getWaveform` and `getWaveformLatest` copy out the samples from a start slot up to the write index.
- **Recording state machine** (src/RecordingPanel.tsx).
  - Record zero-fills the panel's sample buffer and notes the ring index.
  - Each animation frame appends the new ring samples, as many as fit.
  - Finishing copies the sample buffer into the synthesiser's recording buffer.
  - Import replaces the buffer with a decoded channel.
  - Export encodes the recorded prefix.
- **WAV serialiser** (src/wavEncode.ts).
  - `encode` writes the 44-byte header of a RIFF WAVE file, as described in the Multimedia Programming Interface and Data Specifications 1.0. The header holds a `fmt ` chunk for WAVE_FORMAT_PCM, mono, 16 bits, followed by the data chunk header.
  - The samples follow, clamped to [−1, 1], scaled by 32767, truncated, and stored as little-endian int16.
- **Formant pipeline** (src/formantExtractor.ts, src/lpc.ts, src/roots.ts).
  - The steps are a Gaussian window, pre-emphasis and a linear prediction of order 10 by the Levinson–Durbin recursion: 11 coefficients, the first of them 1.
  - The polynomial's roots are then found by Bairstow's method, and those in the upper half plane are moved inside the unit circle.
  - Finally the roots' angles become frequencies, sorted ascending.
  - Praat's Burg method (`praatBurgMethod`) is modelled as well, although the pipeline does not call it.

Modelling choices:

- **Module per source file.** Each source file becomes one module: `VowelSynth`, `RecordingPanel`, `WavEncode`, `FormantExtractor`, `Lpc` and `Roots`. `RealMath` holds the numeric ground.
- **Arrays.** Typed arrays and the DataView buffer are Dafny `array`s, updated in place. JavaScript `Array`s that the code fills and rewrites are `seq` locals, reassigned in the loops.
- **Specification and proof.** Every loop is a method proved against a specification function, and the properties are lemmas about those functions.
- **Numerics.**
  - Numbers in the formant pipeline are `real`.
  - `Math.exp`, `Math.sqrt`, `Math.log`, `Math.atan2` and `Math.PI` are the fields of a `RealMath.Math` value passed in.
  - `RealMath.Lawful` names the only laws the proofs use: exp(0) = 1, exp is positive and increasing, sqrt(x) ≥ 0 with sqrt(x)² = x for x ≥ 0, π > 0, and atan2(y, x) ∈ [0, π] for y ≥ 0.
- **Division by zero.** A division the source does not guard makes the corresponding specification function return `None`: `Lpc.Levinson` for lpc.ts:33 and `Roots.Bairstow` for roots.ts:48-54, 68 and 82. The methods require `Some`.
- **The code over its descriptions.** Where the code and a description of the system differ, the model follows the code:
  - `extractFormants` calls the Levinson–Durbin `forwardLinearPrediction` (formantExtractor.ts:24), not Burg's method.
  - It calls `findRoots` (formantExtractor.ts:2). roots.ts exports only `findRootsOfPolynomial`, so that function is what the model calls.
  - roots.ts:9-10 says the coefficients are listed from x⁰ upwards. The recurrences at roots.ts:36-40 treat `coeffs[0]` as the leading coefficient, and so does the model.
  - roots.ts:60 pushes `solveQuadratic(-s, -r, 1)`. `solveQuadratic` reads its arguments x²-coefficient first, so the pushed pair consists of the reciprocals of the roots of the factor x² − r·x − s, not of those roots themselves. The model keeps the pair as written, because it models what the analyser computes; see "## Findings".
  - Bandwidths are computed but never used, because the gate at formantExtractor.ts:44 is commented out.

## Model

| member | source | states |
|---|---|---|
| VowelSynth.SlotOffset | src/vowelSynth.ts:128 | slot (start + i) mod L and offset (s − start) mod L undo each other |
| VowelSynth.SlotShift | src/vowelSynth.ts:128-132 | moving k slots on from (start + d) mod L lands on (start + d + k) mod L |
| VowelSynth.CapturedSlots | src/vowelSynth.ts:126-130 | after a capture, sample i of the block is in slot (start + i) mod L, and a slot no sample reaches keeps its value |
| VowelSynth.WaveformCountIsDistance | src/vowelSynth.ts:138-141 | getWaveform(from) returns (index − from) mod L samples: fewer than L, and none exactly when from is the write index |
| VowelSynth.CaptureThenRead | src/vowelSynth.ts:126-149 | round trip: a block of fewer than L samples captured from index i is exactly what getWaveform(i) returns afterwards |
| VowelSynth.OffsetShift | src/vowelSynth.ts:128-132 | the offset of slot s from (start + d) mod L is its offset from start less d, mod L |
| VowelSynth.CaptureTwice | src/vowelSynth.ts:120-133 | two captures in a row, from the index the first one leaves, are one capture of the two blocks joined, while together they fit in the ring |
| VowelSynth.CapturedAllJoined | src/vowelSynth.ts:120-133 | a run of captures is one capture of the joined blocks, and the index moves on by their total length mod L |
| VowelSynth.CaptureBlocksThenRead | src/vowelSynth.ts:120-150 | round trip over several blocks: everything captured since index i, in order, is exactly what getWaveform(i) returns, while the total is below L |
| VowelSynth.LatestWindow | src/vowelSynth.ts:153-157 | for 0 < n < L, getWaveformLatest(n) returns n samples, element i taken from slot (index + i − n) mod L; n = 0 and n = L give nothing |
| VowelSynth.LatestAfterCapture | src/vowelSynth.ts:126-157 | after a block of at least n samples, getWaveformLatest(n) is the block's last n samples, oldest first |
| VowelSynth.Synth.constructor | src/vowelSynth.ts:52-53 | the ring is 80000 zeros with write index 0; the recording buffer is 80000 zeros |
| VowelSynth.Synth.CaptureWaveform | src/vowelSynth.ts:120-133 | the ring becomes the captured ring of the old ring, old index and block; the index becomes (old index + length) mod L and stays below L |
| VowelSynth.Synth.GetWaveform | src/vowelSynth.ts:136-150 | a fresh array whose element i is ring[(from + i) mod L], for the count of WaveformCount; no state changes |
| VowelSynth.Synth.GetWaveformLatest | src/vowelSynth.ts:153-157 | a fresh array equal to the latest-samples function of the ring and index |
| RecordingPanel.GoodPreserved | src/RecordingPanel.tsx:83-127 | finish, toggle, frame and import keep the invariant: full-length buffers, 0 ≤ recordingIndex ≤ capacity, below capacity while recording, and the noted ring index a slot |
| RecordingPanel.ToggleStartsOrStops | src/RecordingPanel.tsx:83-104 | from idle: recording, index 0, all-zero buffer, the synth's ring index noted, commit untouched; while recording: stop, committing the unchanged buffer |
| RecordingPanel.IdleFrame | src/RecordingPanel.tsx:109-110 | a frame while idle leaves the whole state unchanged |
| RecordingPanel.FrameAppends | src/RecordingPanel.tsx:112-118 | a frame writes min(new samples, capacity − index) ring samples at the index, keeps every other sample, advances the index by that count and notes the ring index |
| RecordingPanel.FrameStops | src/RecordingPanel.tsx:120-124 | after a frame, recording has stopped exactly when the index equals capacity, and then the buffer is committed; otherwise the commit is untouched |
| RecordingPanel.CaptureThenFrame | src/RecordingPanel.tsx:107-124 | the blocks the synth captured since the noted index, one per worklet message, land in order at the recording index on the next frame, min(total, capacity − index) samples of them; recording goes on exactly when all fit with room to spare |
| RecordingPanel.ImportKeeps | src/RecordingPanel.tsx:194-201 | import keeps min(channel length, capacity) samples, zeroes the rest, sets the index to that count, stops and commits |
| RecordingPanel.ExportPrefix | src/RecordingPanel.tsx:158-162 | the exported file is 44 + 2·index bytes and stores sample k < index as the int16 form of samples[k] |
| RecordingPanel.State.constructor | src/RecordingPanel.tsx:13-26 | an all-zero sample buffer as long as the recording buffer, idle, both indices 0 |
| RecordingPanel.State.RecordingFinish | src/RecordingPanel.tsx:100-104 | recording becomes false and the recording buffer's contents become the sample buffer's |
| RecordingPanel.State.RecordingToggle | src/RecordingPanel.tsx:83-97 | the new state is the toggle of the old one at the synth's ring index, and the invariant holds |
| RecordingPanel.State.RecordingFrame | src/RecordingPanel.tsx:107-127 | the new state is the frame function of the old state, the ring and the write index, and the invariant holds |
| RecordingPanel.State.ImportWav | src/RecordingPanel.tsx:194-201 | the new state is the import of the decoded channel into the old state |
| RecordingPanel.State.ExportWav | src/RecordingPanel.tsx:158-162 | a fresh byte array equal to the WAV file of samples[0..recordingIndex) |
| WavEncode.Uint16RoundTrip | src/wavEncode.ts:41-51 | the two bytes setUint16 stores read back as v mod 2^16 |
| WavEncode.Int16RoundTrip | src/wavEncode.ts:77 | a value in [−32768, 32768) stored by setInt16 reads back unchanged as two's complement |
| WavEncode.Uint32RoundTrip | src/wavEncode.ts:33-47 | the four bytes setUint32 stores read back as v mod 2^32 |
| WavEncode.PcmRange | src/wavEncode.ts:76-77 | a stored sample lies in [−32767, 32767]; 1, −1 and 0 map to 32767, −32767 and 0; the conversion is monotone |
| WavEncode.RiffLayout | src/wavEncode.ts:31-35 | the RIFF header holds "RIFF", a length reading back as (36 + 2n) mod 2^32, and "WAVE" |
| WavEncode.FmtLayout | src/wavEncode.ts:37-51 | the format chunk holds "fmt ", size 16, format 1, channels 1, the sample rate, byte rate 2·rate, block align 2 and 16 bits, each read back little-endian |
| WavEncode.DataLayout | src/wavEncode.ts:53-55 | the data header holds "data" and the data size (2n) mod 2^32 |
| WavEncode.WavLayout | src/wavEncode.ts:24-59 | the file is 44 + 2n bytes; the tags sit at offsets 0, 8, 12 and 36; every header field reads back as written; the RIFF size equals the file length − 8 |
| WavEncode.WavSample | src/wavEncode.ts:72-79 | sample k occupies offsets 44 + 2k and 45 + 2k and reads back as trunc(clamp(x)·32767) |
| WavEncode.SplicedThen | src/wavEncode.ts:31-57 | two writes side by side equal one write of their concatenation, so the fields cover the buffer contiguously |
| WavEncode.SetUint16 | src/wavEncode.ts:41-51 | the buffer is the old buffer with the two little-endian bytes of v mod 2^16 spliced in at the offset |
| WavEncode.SetInt16 | src/wavEncode.ts:77 | the buffer is the old buffer with the 16-bit form of trunc(value) spliced in at the offset |
| WavEncode.SetUint32 | src/wavEncode.ts:33-47 | the buffer is the old buffer with the four little-endian bytes of v mod 2^32 spliced in at the offset |
| WavEncode.WriteString | src/wavEncode.ts:81-85 | the buffer is the old buffer with the character codes, reduced to bytes, spliced in at the offset |
| WavEncode.FloatTo16BitPCM | src/wavEncode.ts:72-79 | the buffer is the old buffer with the samples' int16 bytes, two per sample, spliced in at the offset |
| WavEncode.WriteRiffHeader | src/wavEncode.ts:31-35 | the first 12 bytes become the RIFF header and nothing else changes |
| WavEncode.WriteFmtChunk | src/wavEncode.ts:37-51 | bytes 12-35 become the format chunk and nothing else changes |
| WavEncode.WriteDataHeader | src/wavEncode.ts:53-55 | bytes 36-43 become the data chunk header and nothing else changes |
| WavEncode.Encode | src/wavEncode.ts:5-62 | a fresh buffer equal to the header followed by the samples' bytes |
| Lpc.EnergyNonNegative | src/lpc.ts:7-14 | Σ x[j]² is non-negative, zero for a silent prefix and positive otherwise |
| Lpc.ZeroLagEnergy | src/lpc.ts:7-21 | r[0] ≥ 0, and r[0] = 0 exactly when every sample is 0 |
| Lpc.Autocorrelate | src/lpc.ts:7-14 | the nested loops compute r[i] = Σ_j x[j]·x[j + i] for i ≤ numCoeffs |
| Lpc.LevinsonNext | src/lpc.ts:24-45 | a defined stage k comes from a defined stage k − 1 with non-zero error, by one update |
| Lpc.LevinsonPrefix | src/lpc.ts:24-45 | if stage `later` is defined, so is every earlier stage |
| Lpc.LevinsonStuck | src/lpc.ts:33 | once a division by a zero error happens, no later stage is defined |
| Lpc.SilentFrame | src/lpc.ts:21-33 | the first stage divides by zero exactly for an all-zero frame, which therefore has no prediction |
| Lpc.LevinsonShape | src/lpc.ts:17-41 | at every stage ak[0] = 1, entries above k are 0, and ak[k] is that stage's reflection coefficient |
| Lpc.ReflectShape | src/lpc.ts:36-41 | the update keeps ak[0] = 1, puts λ at the top index and leaves entries above it at 0 |
| Lpc.FlipIsMirror | src/lpc.ts:36-41 | the reflected part of a Toeplitz row is the same row read backwards |
| Lpc.ReflectRow | src/lpc.ts:36-41 | row i of the updated coefficients is row i of the old ones plus λ times the mirrored row |
| Lpc.StageRow | src/lpc.ts:36-44 | the Toeplitz rows after stage k follow from those before it |
| Lpc.NormalStep | src/lpc.ts:24-45 | one stage turns a solution of the order-(k − 1) normal equations into one of order k, with error e·(1 − λ²) |
| Lpc.YuleWalker | src/lpc.ts:24-45 | every defined stage k solves the Yule–Walker normal equations of order k with its error |
| Lpc.PartialStep | src/lpc.ts:36-41 | one pass of the two-ended loop with `temp` extends the closed-form partial update by one index pair |
| Lpc.UpdateCoefficients | src/lpc.ts:36-41 | the in-place loop with `temp` equals the simultaneous update ak'[j] = ak[j] + λ·ak[k + 1 − j] |
| Lpc.Correlate | src/lpc.ts:27-31 | λ before the division is −Σ_{j ≤ k} ak[j]·r[k + 1 − j] |
| Lpc.RunStage | src/lpc.ts:24-45 | one pass of the stage loop equals one Levinson update of the coefficients and the error |
| Lpc.ForwardLinearPrediction | src/lpc.ts:2-49 | the result is the defined prediction, of numCoeffs + 1 entries with ak[0] = 1 |
| Lpc.CrossBound | src/lpc.ts:101-107 | 2·|Σ b1·b2| ≤ Σ (b1² + b2²) |
| Lpc.CoefficientBound | src/lpc.ts:112 | for a positive denominator the reflection coefficient 2·num/denum lies in [−1, 1] |
| Lpc.BurgHaltedStays | src/lpc.ts:109-110 | once the loop has returned early, later orders do not change the result |
| Lpc.IterationBounds | src/lpc.ts:101-116 | an order that goes on keeps xms ≥ 0 and gives a reflection coefficient in [−1, 1] |
| Lpc.BurgBounds | src/lpc.ts:97-136 | at every order reached, xms ≥ 0 and the latest reflection coefficient is in [−1, 1] |
| Lpc.BurgTooShort | src/lpc.ts:60-65 | a frame of at most 2 samples gives [0, −1, 0, …] with no leading 1 |
| Lpc.BurgSilent | src/lpc.ts:76-82 | xms ≤ 0 exactly for a silent frame, which gives numCoeffs zeros |
| Lpc.BurgNormalResult | src/lpc.ts:97-143 | otherwise the result is the early-returned, un-negated coefficients, or a leading 1 followed by the negated coefficients |
| Lpc.BurgOrderTooHigh | src/lpc.ts:103-110 | an order at least the frame length ends in the early return, with numCoeffs entries |
| Lpc.Energy | src/lpc.ts:76-78 | the loop computes Σ x[j]² |
| Lpc.InitialErrors | src/lpc.ts:86-95 | b1 = x[0..n−2] and b2 = x[1..n−1], each followed by a 0 |
| Lpc.Correlations | src/lpc.ts:101-107 | the loop computes num = Σ b1·b2 and denum = Σ b1² + b2² over n − i terms |
| Lpc.Predict | src/lpc.ts:120-121 | the loop computes a[j] = aa[j] − a[i − 1]·aa[i − j − 2] for j < i − 1 |
| Lpc.CopyPredictor | src/lpc.ts:127-128 | aa takes a's first i entries and keeps the rest |
| Lpc.Propagate | src/lpc.ts:130-134 | the in-place loop computes the forward and backward error updates |
| Lpc.BurgOrder | src/lpc.ts:97-136 | one pass of the order loop equals one order of the specification |
| Lpc.NegateAll | src/lpc.ts:138-139 | every coefficient is negated |
| Lpc.PraatBurgMethod | src/lpc.ts:53-144 | the result is the specification's Burg result |
| Roots.SolveQuadraticShape | src/roots.ts:80-101 | the roots sum to −b/a with opposite imaginary parts; for Δ < 0 the real parts are equal, for Δ ≥ 0 the roots are real |
| Roots.QuadraticVanishes | src/roots.ts:80-101 | a complex z satisfying the discriminant relation solves a·z² + b·z + c = 0 |
| Roots.ConjugatePairVanishes | src/roots.ts:84-91 | for Δ < 0 both s0 ± i·√(−Δ)/(2a) solve the quadratic |
| Roots.RealPairVanishes | src/roots.ts:93-101 | for Δ ≥ 0 both s0 ± √Δ/(2a) solve the quadratic |
| Roots.SolveQuadraticSolves | src/roots.ts:74-102 | for a ≠ 0 both returned roots satisfy a·z² + b·z + c = 0, and Δ < 0 gives a non-real pair |
| Roots.FactorRootsSolve | src/roots.ts:60 | the corrected pair solveQuadratic(1, −r, −s) solves z² − r·z − s = 0, whose coefficients 1, −r, −s are those of the factor that ExactFactor splits off |
| Roots.PushedPairReciprocal | src/roots.ts:60 | the pushed pair solveQuadratic(−s, −r, 1), multiplied crosswise with the corrected pair, gives 1 twice: its members are the reciprocals of the factor's roots |
| Roots.PushedPairMisses | src/roots.ts:60 | for the factor x² − 3x + 2 the source pushes 1 and 1/2, and 1/2 is not a root of it; the corrected pair is 2 and 1 |
| Roots.QuotientPrefix | src/roots.ts:36-40 | the first k quotient entries depend only on the first k coefficients |
| Roots.QuotientEntry | src/roots.ts:36-40 | b[i] = p[i] + r·b[i − 1] + s·b[i − 2] |
| Roots.SyntheticDivision | src/roots.ts:36-62 | leading coefficient first, p = (x² − r·x − s)·b[0..n−3] + b[n−2]·(x − r) + b[n−1] |
| Roots.SyntheticEntry | src/roots.ts:36-40 | the synthetic-division identity holds entry by entry |
| Roots.ExactFactor | src/roots.ts:36-62 | when the two remainder entries vanish, p is exactly the quadratic times the deflated polynomial |
| Roots.StepUnfold | src/roots.ts:33-57 | a budgeted pass is one Newton step followed by the loop test |
| Roots.Bairstow | src/roots.ts:22-68 | a defined run finds |p| − 1 roots |
| Roots.BairstowStep | src/roots.ts:22-62 | for |p| > 3 the roots are the pair solving −s·z² − r·z + 1 = 0 followed by the roots of the deflated b[0..n−2] |
| Roots.BairstowLeadingPair | src/roots.ts:22-62 | for |p| > 3 the first two roots reported are the reciprocals of the roots of the settled factor x² − r·x − s |
| Roots.BairstowBase | src/roots.ts:65-68 | three coefficients give the quadratic's roots and two give −p[1]/p[0] |
| Roots.Divide | src/roots.ts:36-46 | the loop writes the quotient into the scratch array's first |p| slots and leaves the rest |
| Roots.Pass | src/roots.ts:34-57 | one pass of the refinement loop equals one Newton step of the specification |
| Roots.RefineFactor | src/roots.ts:26-58 | the loop equals the specification's refinement and runs between 1 and 100 times |
| Roots.Deflate | src/roots.ts:22-62 | one outer iteration pushes the pair for −s·z² − r·z + 1 and shrinks the polynomial by 2 |
| Roots.FindRootsOfPolynomial | src/roots.ts:11-71 | the result is Bairstow's roots from r = s = 0, exactly |p| − 1 of them |
| FormantExtractor.WindowSymmetric | src/formantExtractor.ts:87-95 | w(n) = w(nMax + 1 − n) |
| FormantExtractor.WindowPeak | src/formantExtractor.ts:91-94 | w(nMid) = 1 |
| FormantExtractor.ExponentAtEdge | src/formantExtractor.ts:93 | the window's exponent at n = 0 is −12 |
| FormantExtractor.WindowEdges | src/formantExtractor.ts:91-94 | w(0) = 0 and w(nMax + 1) = 0 |
| FormantExtractor.ExponentRange | src/formantExtractor.ts:93 | for 0 ≤ n ≤ nMax + 1 the exponent lies in [−12, 0] |
| FormantExtractor.WindowRange | src/formantExtractor.ts:91-94 | for 0 ≤ n ≤ nMax + 1 the window lies in [0, 1] |
| FormantExtractor.PreEmphasisFactorRange | src/formantExtractor.ts:121-123 | for a positive sampling frequency the factor exp(−2π·50/fs) lies in (0, 1) |
| FormantExtractor.RestoredPreemphasized | src/formantExtractor.ts:125-126 | the inverse recursion restores the input: pre-emphasis loses nothing |
| FormantExtractor.PraatPreemphasis | src/formantExtractor.ts:115-129 | a fresh array; the input is untouched; elements 0 and 1 are copied, and element i ≥ 2 is x[i] − k·x[i − 1], using the original predecessor |
| FormantExtractor.Norm | src/formantExtractor.ts:55 | re² + im² ≥ 0 |
| FormantExtractor.Conjugate | src/formantExtractor.ts:59-65 | z·conj(z) is the real number |z|², the identity the fix-up's division by |z|² rests on |
| FormantExtractor.ConjugateInvolution | src/formantExtractor.ts:59-65 | conjugating twice is the identity and keeps the norm |
| FormantExtractor.QuotientTimesDivisor | src/formantExtractor.ts:68-75 | the corrected quotient times the divisor is the dividend |
| FormantExtractor.DivideRealNumerator | src/formantExtractor.ts:68-75 | complexDivide as written is the true quotient when the numerator is real |
| FormantExtractor.DivideImaginaryUnit | src/formantExtractor.ts:72 | complexDivide as written gives i / i = −1; the corrected quotient gives 1 |
| FormantExtractor.FixAsWritten | src/formantExtractor.ts:132-139 | at its one call, with numerator 1, the fix-up equals complexDivide as written |
| FormantExtractor.ScaledNorm | src/formantExtractor.ts:137-139 | z / |z|² has squared magnitude 1 / |z|² |
| FormantExtractor.FixUnitCircle | src/formantExtractor.ts:132-139 | a root with |z| ≤ 1 is kept; otherwise it becomes z / |z|², of norm 1 / |z|² < 1, inside the unit circle |
| FormantExtractor.FixIdempotent | src/formantExtractor.ts:132-139 | fixing a fixed root changes nothing |
| FormantExtractor.FixKeepsHalfPlane | src/formantExtractor.ts:132-139 | the fix-up keeps the sign of the imaginary part, both ways |
| FormantExtractor.UpperHalfMembers | src/formantExtractor.ts:27 | a root survives the filter exactly when it is a root with imag ≥ 0 |
| FormantExtractor.RetainedInDisc | src/formantExtractor.ts:26-28 | every retained root has imag ≥ 0 and lies in the closed unit disc |
| FormantExtractor.FrequencyRange | src/formantExtractor.ts:31-34 | for fs > 0 and imag ≥ 0 the frequency atan2(im, re)·fs/2π lies in [0, fs/2] |
| FormantExtractor.InsertPermutes | src/formantExtractor.ts:48 | insertion adds exactly the inserted value to the multiset |
| FormantExtractor.InsertSorted | src/formantExtractor.ts:48 | insertion into an ascending sequence keeps it ascending |
| FormantExtractor.SortAscendingSorts | src/formantExtractor.ts:48 | the sort yields an ascending permutation of its input |
| FormantExtractor.FormantsProperties | src/formantExtractor.ts:7-50 | the formants are ascending, a permutation of the frequencies of the retained roots, at most 10 of them, and each in [0, fs/2] for fs > 0 |
| FormantExtractor.ExtractFormants | src/formantExtractor.ts:7-50 | the window, the pre-emphasis, the prediction, the roots, the filter, the push loop and the sort compute the formants of the specification |

## Left out

- Floating point: every sample and coefficient is a `real`. The model does not capture IEEE rounding, the narrowing to Float32 of typed arrays, or NaN and infinity. Accuracy claims and Bairstow's convergence are not modelled.
- The transcendental functions are parameters obeying `RealMath.Lawful`. `Math.log` enters only the unused bandwidths.
- FormantExtractor.PraatPreemphasis: requires a non-zero sampling frequency. With fs = 0 the source's 1/fs is infinity and the factor becomes exp(−∞) = 0, which the model does not capture.
- FormantExtractor.ExtractFormants: requires that the prediction and Bairstow's method are defined. The source would divide by zero at lpc.ts:33 or roots.ts:48-54, 68 or 82; that case is not modelled.
- The bandwidths (formantExtractor.ts:36-37) are not modelled, because the gate that would read them (formantExtractor.ts:44) is commented out.
- `formants.sort` is a library sort. It is modelled as an insertion sort on a `seq`, proved to give the ascending permutation; the in-place order of the JavaScript sort is not modelled.
- `hammingWindow` and `preemphasisFilter` are not modelled: their callers are commented out at formantExtractor.ts:16 and 20.
- Lpc.PraatBurg: numCoeffs = 0 with at most two samples is not captured. There JavaScript's `a[1] = -1` leaves a hole at index 0; the model puts 0 there.
- Lpc.PraatBurg: the `n < 2` return at lpc.ts:87-88 is unreachable after the `n ≤ 2` return, so it is not modelled.
- `writeFloat32` and the format-3 branch are not modelled, because `encode` fixes the format to 1 (wavEncode.ts:10). `encodeWAV` is modelled only with the arguments `encode` passes: format 1, one channel, 16 bits.
- WavEncode.Encode: the sample rate is an integer. A fractional rate, which setUint32 would truncate, is not modelled.
- VowelSynth.Synth.CaptureWaveform: requires length ≤ |buffer| and length ≤ 1024, the block size of the audio worklet (audioWorklet.ts:37). Longer blocks, which would overwrite their own start, are not modelled.
- Roots.FindRootsOfPolynomial: requires at least two coefficients. With fewer, roots.ts:68 reads a missing coefficient and pushes NaN, which the model does not capture. The analyser always passes 11.
- VowelSynth.Synth.GetWaveform: the start index is a `nat`. A negative start, which would index the ring at a negative position, is not modelled.
- VowelSynth.Synth.GetWaveformLatest: requires n ≤ index + L. Beyond that, JavaScript's `%` gives a negative start, which is not modelled.
- The Web Audio graph is not modelled: node creation, `resume`, `setGain`, `setFrequencies`, the analysers, `playRecording`, `openMic` and the message port of the worklet. `captureWaveform` takes the posted buffer and length directly.
- From the recording panel, the canvas drawing, `play` and `playFrame`, the Blob download and the file picker are not modelled. `decodeAudioData` is not modelled either: the decoded channel and the sample rate are parameters.
- The scheduling by `requestAnimationFrame` is not modelled. Each frame is one call of RecordingFrame.

## Findings

| source | as written | input that shows it | evidently intended | confidence | as-written member | corrected member |
|---|---|---|---|---|---|---|
| src/roots.ts:60 | pushes solveQuadratic(−s, −r, 1), whose roots solve −s·z² − r·z + 1 = 0 | the factor x² − 3x + 2 (r = 3, s = −2) gives 1 and 1/2, and 1/2 is not a root of it | solveQuadratic(1, −r, −s), the roots of the factor x² − r·x − s | not executed; the pushed members are the reciprocals of the factor's roots. The fix-up at formantExtractor.ts:132-139 maps 1/z outside the unit disc to conj(z), so the angles of a conjugate pair, and with them the formant frequencies, come out the same; the model does not prove this part | Roots.PushedPairMisses | Roots.FactorRootsSolve |
| src/formantExtractor.ts:72 | complexDivide's real part is (a.real·b.real − a.imag·b.imag)/d | a = b = i gives −1 instead of 1 | (a.real·b.real + a.imag·b.imag)/d, the real part of a/b | not executed; latent, because its one call passes the real numerator 1 | FormantExtractor.DivideImaginaryUnit | FormantExtractor.QuotientTimesDivisor |
