/**
 One whole run of the script (agreementNoise.py, lines 6-88): n indices, one
 circuit per index, Bob's measured bits, the sifted keys and their statistics.

 The draws the script takes from its random sources are the fields of `Run`:
 the Eve flag, the four bit/basis arrays, one noise coin and one Eve re-encode
 bit per index, and one stream of measurement outcomes per circuit.
 */
module Protocol {
  import opened Qubit
  import opened Circuit
  import opened Sifting
  import opened Analysis

  datatype Run = Run(
    evePresent: bool,
    aliceBits: seq<Bit>,
    aliceBases: seq<Basis>,
    bobBases: seq<Basis>,
    eveBases: seq<Basis>,
    noiseFlips: seq<bool>,
    eveBits: seq<Bit>,
    coins: seq<Coins>)

  /** Every per-index array has the run's length n. */
  predicate WellFormed(run: Run) {
    var n := |run.aliceBits|;
    && |run.aliceBases| == n && |run.bobBases| == n && |run.eveBases| == n
    && |run.noiseFlips| == n && |run.eveBits| == n && |run.coins| == n
  }

  /** The inputs of index i. */
  function RoundAt(run: Run, i: nat): Round
    requires WellFormed(run) && i < |run.aliceBits|
  {
    Round(run.aliceBits[i], run.aliceBases[i], run.bobBases[i], run.eveBases[i],
          run.noiseFlips[i], run.eveBits[i])
  }

  /** Bob's measured bit for every index (line 65); each follows the channel rule for its index. */
  function BobResults(run: Run): (results: seq<Bit>)
    requires WellFormed(run)
    ensures |results| == |run.aliceBits|
    ensures forall i :: 0 <= i < |results| ==>
              results[i] == ChannelOutcome(RoundAt(run, i), run.evePresent, run.coins[i])
  {
    seq(|run.aliceBits|, i requires 0 <= i < |run.aliceBits| =>
      BobBit(RoundAt(run, i), run.evePresent, run.coins[i]))
  }

  /** Alice's sifted key (line 69): her bits at the matching indices, in index order. */
  function AliceKey(run: Run): (key: seq<Bit>)
    requires WellFormed(run)
    ensures |key| == |MatchSet(run.aliceBases, run.bobBases)|
    ensures forall k :: 0 <= k < |key| ==>
              key[k] == run.aliceBits[MatchingIndices(run.aliceBases, run.bobBases)[k]]
  {
    SiftedKey(run.aliceBits, run.aliceBases, run.bobBases)
  }

  /** Bob's sifted key (line 70): as long as Alice's, and at each position the
      channel outcome of the matching index it comes from. */
  function BobKey(run: Run): (key: seq<Bit>)
    requires WellFormed(run)
    ensures |key| == |AliceKey(run)|
    ensures forall k :: 0 <= k < |key| ==>
              var i := MatchingIndices(run.aliceBases, run.bobBases)[k];
              key[k] == ChannelOutcome(RoundAt(run, i), run.evePresent, run.coins[i])
  {
    SiftedKey(BobResults(run), run.aliceBases, run.bobBases)
  }

  /** The statistics the script reports for a run. */
  function RunReport(run: Run): (r: Result<Report>)
    requires WellFormed(run)
    ensures r.Err? <==> MatchSet(run.aliceBases, run.bobBases) == {}
    ensures r.Ok? ==> r.value.agreementRate + r.value.qber == 1.0
  {
    Analyze(AliceKey(run), BobKey(run))
  }

  /** Without Eve, position k of the keys disagrees exactly when the k-th matching
      index drew noise and was encoded in the rectilinear basis. */
  lemma NoEveErrorsAreRectilinearNoise(run: Run)
    requires WellFormed(run) && !run.evePresent
    ensures |AliceKey(run)| == |BobKey(run)|
    ensures forall k :: 0 <= k < |AliceKey(run)| ==>
              var i := MatchingIndices(run.aliceBases, run.bobBases)[k];
              (AliceKey(run)[k] != BobKey(run)[k] <==>
                 run.noiseFlips[i] && run.aliceBases[i] == Rectilinear)
  {
  }

  /** The sifted positions whose matching index drew noise and was encoded rectilinearly. */
  ghost function NoisyRectilinearPositions(run: Run): set<nat>
    requires WellFormed(run)
  {
    var idx := MatchingIndices(run.aliceBases, run.bobBases);
    set k: nat | k < |idx| && run.noiseFlips[idx[k]] && run.aliceBases[idx[k]] == Rectilinear
  }

  /** Without Eve, the positions where the keys differ are exactly the noisy rectilinear ones. */
  lemma NoEveErrorPositions(run: Run)
    requires WellFormed(run) && !run.evePresent
    ensures |AliceKey(run)| == |BobKey(run)|
    ensures DifferentBelow(AliceKey(run), BobKey(run), |AliceKey(run)|) == NoisyRectilinearPositions(run)
  {
    NoEveErrorsAreRectilinearNoise(run);
  }

  /** Without Eve, the reported QBER is the fraction of sifted positions whose
      matching index drew noise and was encoded in the rectilinear basis. */
  lemma NoEveQberIsRectilinearNoiseFraction(run: Run)
    requires WellFormed(run) && !run.evePresent
    ensures RunReport(run).Ok? ==>
              RunReport(run).value.qber
                == |NoisyRectilinearPositions(run)| as real / |AliceKey(run)| as real
  {
    NoEveErrorPositions(run);
    ReportedQberCountsDifferences(AliceKey(run), BobKey(run));
  }

  /** Ideal run, with no Eve and no noise draw: the two sifted keys are identical,
      so when the key is non-empty the QBER is 0 and the agreement rate is 1. */
  lemma IdealRunHasNoErrors(run: Run)
    requires WellFormed(run) && !run.evePresent
    requires forall i :: 0 <= i < |run.noiseFlips| ==> !run.noiseFlips[i]
    ensures AliceKey(run) == BobKey(run)
    ensures RunReport(run).Ok? ==>
              RunReport(run).value.qber == 0.0 && RunReport(run).value.agreementRate == 1.0
  {
    NoEveErrorsAreRectilinearNoise(run);
    var a, b := AliceKey(run), BobKey(run);
    assert forall k :: 0 <= k < |a| ==> a[k] == b[k];
    if |a| > 0 {
      assert Qber(a, b) == 0.0;
    }
  }

  /** With Eve present, at a sifted position where Eve chose the same basis as
      Bob, Bob's key bit is Eve's re-encoded bit, so it is an error exactly when
      her bit differs from Alice's. */
  lemma EveMatchedPositionsCarryEveBit(run: Run)
    requires WellFormed(run) && run.evePresent
    ensures forall k :: 0 <= k < |BobKey(run)| ==>
              var i := MatchingIndices(run.aliceBases, run.bobBases)[k];
              run.eveBases[i] == run.bobBases[i] ==>
                && BobKey(run)[k] == run.eveBits[i]
                && (AliceKey(run)[k] != BobKey(run)[k] <==> run.eveBits[i] != run.aliceBits[i])
  {
  }
}
