/**
 Agreement statistics over the sifted keys (agreementNoise.py, lines 73-87).

 The script pairs the two keys with `zip`, which stops at the shorter one,
 counts equal and unequal pairs, and divides each count by the length of
 Alice's key with no guard against an empty key. Rates are exact rationals
 here (`real`); the script's floating point is not modelled.
 */
module Analysis {
  import opened Qubit

  function Min(a: nat, b: nat): nat {
    if a <= b then a else b
  }

  /** Number of positions, over the common prefix, where the two keys agree. */
  function AgreementCount(a: seq<Bit>, b: seq<Bit>): (k: nat)
    ensures k <= |a| && k <= |b|
  {
    if |a| == 0 || |b| == 0 then 0
    else (if a[0] == b[0] then 1 else 0) + AgreementCount(a[1..], b[1..])
  }

  /** Number of positions, over the common prefix, where the two keys differ. */
  function DisagreementCount(a: seq<Bit>, b: seq<Bit>): (k: nat)
    ensures k <= |a| && k <= |b|
  {
    if |a| == 0 || |b| == 0 then 0
    else (if a[0] != b[0] then 1 else 0) + DisagreementCount(a[1..], b[1..])
  }

  /** Every zipped pair is either an agreement or a disagreement. */
  lemma {:induction false} CountsPartition(a: seq<Bit>, b: seq<Bit>)
    ensures AgreementCount(a, b) + DisagreementCount(a, b) == Min(|a|, |b|)
  {
    if |a| > 0 && |b| > 0 {
      CountsPartition(a[1..], b[1..]);
    }
  }

  /** Equal-length keys have no disagreement exactly when they are equal. */
  lemma {:induction false} NoDisagreementIffEqual(a: seq<Bit>, b: seq<Bit>)
    requires |a| == |b|
    ensures DisagreementCount(a, b) == 0 <==> a == b
  {
    if |a| > 0 {
      NoDisagreementIffEqual(a[1..], b[1..]);
      assert a == [a[0]] + a[1..];
      assert b == [b[0]] + b[1..];
    }
  }

  /** Extending both keys by one pair adds that pair to exactly one of the counts. */
  lemma {:induction false} CountsSnoc(a: seq<Bit>, b: seq<Bit>, x: Bit, y: Bit)
    requires |a| == |b|
    ensures AgreementCount(a + [x], b + [y]) == AgreementCount(a, b) + (if x == y then 1 else 0)
    ensures DisagreementCount(a + [x], b + [y]) == DisagreementCount(a, b) + (if x != y then 1 else 0)
  {
    if |a| > 0 {
      assert (a + [x])[1..] == a[1..] + [x];
      assert (b + [y])[1..] == b[1..] + [y];
      CountsSnoc(a[1..], b[1..], x, y);
    } else {
      assert a + [x] == [x] && b + [y] == [y];
    }
  }

  /** `zip` stops at the shorter key: the counts only see the common prefix. */
  lemma {:induction false} CountsTruncate(a: seq<Bit>, b: seq<Bit>)
    ensures AgreementCount(a, b) == AgreementCount(a[..Min(|a|, |b|)], b[..Min(|a|, |b|)])
    ensures DisagreementCount(a, b) == DisagreementCount(a[..Min(|a|, |b|)], b[..Min(|a|, |b|)])
  {
    var m := Min(|a|, |b|);
    if m > 0 {
      CountsTruncate(a[1..], b[1..]);
      assert a[..m][1..] == a[1..][..m - 1];
      assert b[..m][1..] == b[1..][..m - 1];
    }
  }

  /** The positions below `n` where the two keys hold the same bit. */
  ghost function EqualBelow(a: seq<Bit>, b: seq<Bit>, n: nat): set<nat>
    requires n <= |a| && n <= |b|
  {
    set i: nat | i < n && a[i] == b[i]
  }

  /** The positions below `n` where the two keys hold different bits. */
  ghost function DifferentBelow(a: seq<Bit>, b: seq<Bit>, n: nat): set<nat>
    requires n <= |a| && n <= |b|
  {
    set i: nat | i < n && a[i] != b[i]
  }

  /** Raising the bound by one adds that position to exactly one of the two sets. */
  lemma PositionSetsStep(a: seq<Bit>, b: seq<Bit>, n: nat)
    requires 0 < n <= |a| && n <= |b|
    ensures |EqualBelow(a, b, n)| == |EqualBelow(a, b, n - 1)| + (if a[n - 1] == b[n - 1] then 1 else 0)
    ensures |DifferentBelow(a, b, n)| == |DifferentBelow(a, b, n - 1)| + (if a[n - 1] != b[n - 1] then 1 else 0)
  {
    assert n - 1 !in EqualBelow(a, b, n - 1) && n - 1 !in DifferentBelow(a, b, n - 1);
    if a[n - 1] == b[n - 1] {
      assert EqualBelow(a, b, n) == EqualBelow(a, b, n - 1) + {n - 1};
      assert DifferentBelow(a, b, n) == DifferentBelow(a, b, n - 1);
    } else {
      assert EqualBelow(a, b, n) == EqualBelow(a, b, n - 1);
      assert DifferentBelow(a, b, n) == DifferentBelow(a, b, n - 1) + {n - 1};
    }
  }

  /** Counting the first `n` zipped pairs gives the sizes of the position sets below `n`. */
  lemma {:induction false} PrefixCountsAreCardinalities(a: seq<Bit>, b: seq<Bit>, n: nat)
    requires n <= |a| && n <= |b|
    ensures AgreementCount(a[..n], b[..n]) == |EqualBelow(a, b, n)|
    ensures DisagreementCount(a[..n], b[..n]) == |DifferentBelow(a, b, n)|
  {
    if n > 0 {
      var a', b' := a[..n - 1], b[..n - 1];
      PrefixCountsAreCardinalities(a, b, n - 1);
      assert a[..n] == a' + [a[n - 1]];
      assert b[..n] == b' + [b[n - 1]];
      CountsSnoc(a', b', a[n - 1], b[n - 1]);
      PositionSetsStep(a, b, n);
    } else {
      assert EqualBelow(a, b, 0) == {} && DifferentBelow(a, b, 0) == {};
    }
  }

  /** The agreement count (line 73) is the number of zipped positions holding equal
      bits, and the disagreement count (line 78) the number holding different bits. */
  lemma CountsAreCardinalities(a: seq<Bit>, b: seq<Bit>)
    ensures AgreementCount(a, b) == |EqualBelow(a, b, Min(|a|, |b|))|
    ensures DisagreementCount(a, b) == |DifferentBelow(a, b, Min(|a|, |b|))|
  {
    CountsTruncate(a, b);
    PrefixCountsAreCardinalities(a, b, Min(|a|, |b|));
  }

  /** Facts about a count divided by a positive total, as exact rationals. */
  lemma RatioBounds(x: nat, n: nat)
    requires 0 < n && x <= n
    ensures 0.0 <= x as real / n as real <= 1.0
    ensures x as real / n as real == 0.0 <==> x == 0
  {
  }

  /** Two counts that make up the total give ratios that add up to one. */
  lemma RatiosComplement(c: nat, d: nat, n: nat)
    requires 0 < n && c + d == n
    ensures d as real / n as real == 1.0 - c as real / n as real
  {
    var cr, dr, nr := c as real, d as real, n as real;
    assert cr + dr == nr;
    assert dr / nr == (nr - cr) / nr;
    assert (nr - cr) / nr == nr / nr - cr / nr;
    assert nr / nr == 1.0;
  }

  /** Key agreement rate (line 74): agreements over Alice's key length. */
  function KeyAgreementRate(aliceKey: seq<Bit>, bobKey: seq<Bit>): (rate: real)
    requires |aliceKey| > 0
    ensures 0.0 <= rate <= 1.0
  {
    RatioBounds(AgreementCount(aliceKey, bobKey), |aliceKey|);
    AgreementCount(aliceKey, bobKey) as real / |aliceKey| as real
  }

  /** Quantum bit error rate (line 79): disagreements over Alice's key length. */
  function Qber(aliceKey: seq<Bit>, bobKey: seq<Bit>): (rate: real)
    requires |aliceKey| > 0
    ensures 0.0 <= rate <= 1.0
    ensures |aliceKey| == |bobKey| ==> rate == 1.0 - KeyAgreementRate(aliceKey, bobKey)
    ensures |aliceKey| == |bobKey| ==> (rate == 0.0 <==> aliceKey == bobKey)
  {
    var n := |aliceKey|;
    var d := DisagreementCount(aliceKey, bobKey);
    RatioBounds(d, n);
    if |aliceKey| == |bobKey| then
      CountsPartition(aliceKey, bobKey);
      NoDisagreementIffEqual(aliceKey, bobKey);
      RatiosComplement(AgreementCount(aliceKey, bobKey), d, n);
      d as real / n as real
    else
      d as real / n as real
  }

  /** The percentage at line 87: the agreement count recomputed, over the key length, times 100. */
  function Accuracy(aliceKey: seq<Bit>, bobKey: seq<Bit>): (pct: real)
    requires |aliceKey| > 0
    ensures pct == KeyAgreementRate(aliceKey, bobKey) * 100.0
    ensures 0.0 <= pct <= 100.0
  {
    AgreementCount(aliceKey, bobKey) as real / |aliceKey| as real * 100.0
  }

  /** The agreement rate is the fraction of Alice's key positions whose zipped pair
      agrees, and the QBER the fraction whose pair differs. */
  lemma RatesArePositionFractions(aliceKey: seq<Bit>, bobKey: seq<Bit>)
    requires |aliceKey| > 0
    ensures KeyAgreementRate(aliceKey, bobKey)
            == |EqualBelow(aliceKey, bobKey, Min(|aliceKey|, |bobKey|))| as real / |aliceKey| as real
    ensures Qber(aliceKey, bobKey)
            == |DifferentBelow(aliceKey, bobKey, Min(|aliceKey|, |bobKey|))| as real / |aliceKey| as real
  {
    CountsAreCardinalities(aliceKey, bobKey);
  }

  /** The only way the statistics fail: division by the length of an empty key. */
  datatype AnalysisError = EmptyKey

  datatype Result<T> = Ok(value: T) | Err(error: AnalysisError)

  /** Everything the script reports about a pair of sifted keys. */
  datatype Report = Report(
    keyLength: nat,
    agreementCount: nat,
    disagreementCount: nat,
    agreementRate: real,
    qber: real,
    accuracy: real)

  /** The statistics of lines 73-87, with the division by zero the script would
      raise on an empty key returned as `EmptyKey`. */
  function Analyze(aliceKey: seq<Bit>, bobKey: seq<Bit>): (r: Result<Report>)
    ensures r.Err? <==> |aliceKey| == 0
    ensures r.Ok? ==> r.value.keyLength == |aliceKey|
    ensures r.Ok? && |aliceKey| == |bobKey| ==>
              && r.value.agreementCount + r.value.disagreementCount == r.value.keyLength
              && r.value.agreementRate + r.value.qber == 1.0
              && r.value.accuracy == 100.0 * r.value.agreementRate
  {
    if |aliceKey| == 0 then Err(EmptyKey)
    else
      CountsPartition(aliceKey, bobKey);
      Ok(Report(
        |aliceKey|,
        AgreementCount(aliceKey, bobKey),
        DisagreementCount(aliceKey, bobKey),
        KeyAgreementRate(aliceKey, bobKey),
        Qber(aliceKey, bobKey),
        Accuracy(aliceKey, bobKey)))
  }

  /** The reported QBER counts the zipped positions holding different bits. */
  lemma ReportedQberCountsDifferences(aliceKey: seq<Bit>, bobKey: seq<Bit>)
    ensures Analyze(aliceKey, bobKey).Ok? ==>
              Analyze(aliceKey, bobKey).value.qber
                == |DifferentBelow(aliceKey, bobKey, Min(|aliceKey|, |bobKey|))| as real / |aliceKey| as real
  {
    if |aliceKey| > 0 {
      RatesArePositionFractions(aliceKey, bobKey);
    }
  }
}
