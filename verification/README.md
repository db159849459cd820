# BB84 agreement simulation, modelled in Dafny

A model of `agreementNoise.py`, a script that simulates the BB84 quantum key
distribution protocol between Alice and Bob. With probability one half an
eavesdropper, Eve, intercepts every qubit; otherwise each qubit may suffer
bit-flip noise. The script builds one single-qubit circuit per index, runs
them, sifts the indices where Alice's and Bob's bases agree, and reports the
key agreement rate and the quantum bit error rate (QBER).

The model has five modules:

- `Qubit` (`qubit.dfy`): bits, bases, the gate set (X, H, measure, reset) and
  a four-state interpreter (`Zero`, `One`, `Plus`, `Minus`). It stands in for
  the circuit simulator. The circuits only use these gates on a qubit that
  starts in |0>, so the qubit never leaves these four states. Global phase is
  dropped. Measuring `Plus` or `Minus` reads the next value from an explicit
  stream of coin outcomes and collapses the qubit to `Zero` or `One`.
- `Circuit` (`circuit.dfy`): the per-index circuit builder and what the
  interpreter makes of it. `ChannelOutcome` is an independent statement of
  the BB84 channel rule without gates, and the contract of `BobBit` proves
  that the interpreter agrees with it on every input and every coin stream.
- `Sifting` (`sifting.dfy`): the matching-index comprehension and the two
  projected keys of lines 68-70. `SiftKeys` is a one-pass formulation of the
  same three comprehensions, proved equal to the keys they build.
- `Analysis` (`analysis.dfy`): agreement and disagreement counts over the
  zipped keys, and the rates as exact rationals. `Analyze` returns `EmptyKey`
  where the script would divide by zero.
- `Protocol` (`protocol.dfy`): a whole run over n indices, with every random
  draw as an explicit field, and end-to-end properties of the keys.

Eve's measurement writes classical bit 0. Bob's measurement is the last gate
and overwrites that bit, so the bit the script reads back is Bob's result.
The interpreter models this directly.

Three points of the program's behaviour shape the model:

- The noise at line 37 is an X gate, commented "Bit-flip noise". X fixes
  `Plus` and `Minus` up to global phase, so it flips Bob's result only for
  rectilinear encodings; a diagonal encoding passes through unchanged.
  `Circuit.NoisyChannel` and `Protocol.NoEveErrorsAreRectilinearNoise` state
  this.
- The script never checks array shapes, because every array has length n by
  construction. The model requires equal lengths and does not model a
  shape-mismatch error.
- The script divides by the key length without a guard. The rate functions
  require a non-empty key. `Analysis.Analyze` returns `EmptyKey` for the
  division-by-zero failure.

## Model

| member | source | states |
|---|---|---|
| Qubit.Prepared | agreementNoise.py:29-32 | the state Alice prepares for (bit, basis) encodes that bit in that basis |
| Qubit.PreparedIsBijective | agreementNoise.py:29-32 | each of the four states is the encoding of exactly one (bit, basis) pair, so Alice's two choices select one state |
| Qubit.ApplyX | agreementNoise.py:30 | X keeps the basis, flips the bit of a rectilinear state and leaves a diagonal state unchanged |
| Qubit.ApplyH | agreementNoise.py:32 | H keeps the encoded bit and switches the basis |
| Qubit.GatesAreInvolutions | agreementNoise.py:29-55 | X and H each undo themselves on every state |
| Qubit.Step | agreementNoise.py:43-55 | measuring a rectilinear state copies its bit into the classical bit without a draw; measuring a diagonal state uses the next draw and collapses the qubit to that bit; reset gives Zero; other gates leave the classical bit alone |
| Qubit.Exec | agreementNoise.py:60-65 | running a circuit uses at most one draw per measure gate, keeps the classical bit when there is no measure, and leaves Zero after a final reset |
| Qubit.ExecAppend | agreementNoise.py:25-57 | running two gate lists one after the other is the same as running their concatenation |
| Circuit.Encode | agreementNoise.py:29-32 | Alice's preparation has one X exactly when her bit is 1, and no measure or reset |
| Circuit.EncodePrepares | agreementNoise.py:29-32 | from Zero, Alice's preparation gives the state that encodes her (bit, basis) and changes nothing else |
| Circuit.MeasureIn | agreementNoise.py:53-55 | a measurement block holds exactly one measure, as its last gate, and no X or reset |
| Circuit.MeasureInRule | agreementNoise.py:53-55 | measuring in the state's own basis returns its bit with no draw; measuring in the other basis returns the next draw and uses one |
| Circuit.Noise | agreementNoise.py:34-37 | the noise gate is present exactly when Eve is absent and the noise coin came up |
| Circuit.Intercept | agreementNoise.py:39-50 | Eve's block is present exactly when she is, with one measure, a reset, and one X exactly when her re-encode bit is 1 |
| Circuit.InterceptResends | agreementNoise.py:43-50 | after Eve's block the qubit encodes her re-encode bit in her basis, whatever state arrived |
| Circuit.BuildCircuit | agreementNoise.py:25-57 | the per-index circuit never holds both the noise gate and Eve's block; it has two measures with Eve and one without, a reset exactly when Eve is present, as many X gates as Alice's bit plus Eve's bit (with Eve) or the noise flip (without), and ends with Bob's measure |
| Circuit.ArrivingStateRule | agreementNoise.py:29-50 | without Eve, Bob receives Alice's state, passed through X if the noise coin came up; with Eve, he receives Eve's encoding, after one draw if her basis differed from Alice's |
| Circuit.BobBit | agreementNoise.py:53-65 | the bit read back is Bob's measurement of the qubit that reaches him (its bit in its own basis, the next draw otherwise), overwriting Eve's, and equals the BB84 channel rule for every input and coin stream |
| Circuit.IdealChannel | agreementNoise.py:29-55 | without Eve or noise and with matching bases, Bob reads Alice's bit whatever the coins |
| Circuit.NoisyChannel | agreementNoise.py:29-55 | without Eve, with noise and matching bases, Bob reads the flipped bit in the rectilinear basis and Alice's bit in the diagonal basis |
| Circuit.EveErasesAlice | agreementNoise.py:43-50 | with Eve present, the qubit reaching Bob does not depend on Alice's bit or basis |
| Circuit.BobReadsEveBit | agreementNoise.py:46-55 | with Eve present and Bob in Eve's basis, Bob reads Eve's re-encode bit |
| Sifting.MatchingIndices | agreementNoise.py:68 | the result is strictly increasing; it holds exactly the indices whose bases agree; its length is the number of such indices, at most n |
| Sifting.SiftedKey | agreementNoise.py:69-70 | a sifted key's length is the number of matching indices, at most n, and its element k is the bit at the k-th matching index |
| Sifting.MatchingIndicesSnoc | agreementNoise.py:68 | one more index joins the matching indices, at the end, exactly when its bases agree |
| Sifting.SiftedKeySnoc | agreementNoise.py:68-70 | one more index appends its bit to the key when its bases agree and nothing otherwise, so the order is preserved |
| Sifting.MismatchedIndicesIgnored | agreementNoise.py:68-70 | bits at indices with mismatched bases never affect a sifted key |
| Sifting.SiftingExtremes | agreementNoise.py:68-70 | bases that all agree keep every bit; bases that all differ give an empty key |
| Sifting.SiftKeys | agreementNoise.py:68-70 | a one-pass formulation of the three comprehensions: it produces both keys, of equal length (the number of matching indices), each equal to the key the comprehensions build from its party's bits |
| Analysis.AgreementCount | agreementNoise.py:73 | the agreement count never exceeds either key's length; its value is fixed by `Analysis.CountsSnoc` and `Analysis.CountsAreCardinalities` |
| Analysis.DisagreementCount | agreementNoise.py:78 | the disagreement count never exceeds either key's length; its value is fixed by `Analysis.CountsSnoc` and `Analysis.CountsAreCardinalities` |
| Analysis.CountsSnoc | agreementNoise.py:73-78 | one more zipped pair adds one to the agreement count when its bits are equal and one to the disagreement count when they differ |
| Analysis.CountsTruncate | agreementNoise.py:73-78 | the counts depend only on the common prefix that `zip` pairs up |
| Analysis.PrefixCountsAreCardinalities | agreementNoise.py:73-78 | counting the first n zipped pairs gives the number of positions below n with equal bits, and with different bits |
| Analysis.CountsAreCardinalities | agreementNoise.py:73-78 | the agreement count is the number of zipped positions holding equal bits, and the disagreement count the number holding different bits |
| Analysis.CountsPartition | agreementNoise.py:73-78 | agreements plus disagreements equal the number of zipped pairs |
| Analysis.NoDisagreementIffEqual | agreementNoise.py:78 | equal-length keys have no disagreement exactly when they are equal |
| Analysis.KeyAgreementRate | agreementNoise.py:74 | the agreement rate lies in [0, 1] |
| Analysis.Qber | agreementNoise.py:79 | the QBER lies in [0, 1]; for equal-length keys it is one minus the agreement rate, and it is 0 exactly when the keys are equal |
| Analysis.Accuracy | agreementNoise.py:87 | the accuracy is the agreement rate times 100, within [0, 100] |
| Analysis.RatesArePositionFractions | agreementNoise.py:73-79 | the agreement rate is the fraction of Alice's key positions whose pair agrees, and the QBER the fraction whose pair differs |
| Analysis.Analyze | agreementNoise.py:73-88 | the statistics fail exactly when Alice's key is empty; otherwise, for equal-length keys, the counts add up to the key length, the rates add up to 1 and the accuracy is 100 times the agreement rate |
| Protocol.BobResults | agreementNoise.py:65 | there is one result per index, and each follows the channel rule for its index |
| Protocol.AliceKey | agreementNoise.py:69 | Alice's key has one entry per matching index, and entry k is her bit at the k-th matching index |
| Protocol.BobKey | agreementNoise.py:70 | Bob's key is as long as Alice's, and entry k is the channel outcome at the k-th matching index |
| Analysis.ReportedQberCountsDifferences | agreementNoise.py:73-79 | the QBER in the report is the number of zipped positions with different bits over Alice's key length |
| Protocol.RunReport | agreementNoise.py:68-79 | a run's statistics fail exactly when no index has matching bases; otherwise the agreement rate and the QBER add up to 1 |
| Protocol.NoEveErrorsAreRectilinearNoise | agreementNoise.py:34-70 | without Eve, a sifted position is an error exactly when its index drew noise and was encoded rectilinearly |
| Protocol.NoEveErrorPositions | agreementNoise.py:34-78 | without Eve, the positions where the sifted keys differ are exactly those whose matching index drew noise and was encoded rectilinearly |
| Protocol.NoEveQberIsRectilinearNoiseFraction | agreementNoise.py:34-79 | without Eve, the reported QBER is the fraction of sifted positions whose matching index drew noise and was encoded rectilinearly |
| Protocol.IdealRunHasNoErrors | agreementNoise.py:25-79 | without Eve or noise the two sifted keys are identical, so a non-empty key has QBER 0 and agreement rate 1 |
| Protocol.EveMatchedPositionsCarryEveBit | agreementNoise.py:39-70 | with Eve present, at a sifted position where Eve's basis equals Bob's, Bob's key bit is Eve's re-encode bit, and it is an error exactly when that bit differs from Alice's |

## Left out

- Random number generation (lines 10, 14-21, 36 and 47). Every draw is an explicit field of `Protocol.Run`. Distributions are not modelled.
- The noise probability (line 7). It enters only through the per-index noise coin `noiseFlip`.
- The qubit count n = 100 (line 6). The model holds for every n, including n = 0, where the key is empty and `Analysis.Analyze` reports `EmptyKey`.
- Circuit execution by the simulator and its job/result API (lines 60-62). The four-state interpreter `Qubit.Exec` replaces them, and one coin stream per circuit stands for the simulator's measurement randomness.
- Parsing the memory string (line 65). The interpreter returns classical bit 0 directly.
- Probabilistic claims: Eve guessing right about half the time (line 42), the expected QBER of about 25% with Eve present, and the sifted key length concentrating near n/2. They are statements about distributions, not about single runs.
- Complex amplitudes and global phase. They cannot be observed in these circuits.
- Floating-point division, percentage formatting and all printed output (lines 11, 75, 80, 83-88). Rates are exact rationals.
