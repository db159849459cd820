/**
 Key sifting (agreementNoise.py, lines 68-70): keep the indices where Alice's
 and Bob's bases agree, and read both parties' bits at those indices in
 increasing index order.
 */
module Sifting {
  import opened Qubit

  /** The indices below `n` where the two basis sequences agree. */
  ghost function MatchSetBelow(aliceBases: seq<Basis>, bobBases: seq<Basis>, n: nat): set<nat>
    requires |aliceBases| == |bobBases| && n <= |aliceBases|
  {
    set i: nat | i < n && aliceBases[i] == bobBases[i]
  }

  /** The set of indices where the two basis sequences agree. */
  ghost function MatchSet(aliceBases: seq<Basis>, bobBases: seq<Basis>): set<nat>
    requires |aliceBases| == |bobBases|
  {
    MatchSetBelow(aliceBases, bobBases, |aliceBases|)
  }

  /** Raising the bound by one adds that index exactly when its bases agree. */
  lemma MatchSetBelowStep(aliceBases: seq<Basis>, bobBases: seq<Basis>, n: nat)
    requires |aliceBases| == |bobBases| && 0 < n <= |aliceBases|
    ensures n - 1 !in MatchSetBelow(aliceBases, bobBases, n - 1)
    ensures MatchSetBelow(aliceBases, bobBases, n)
            == MatchSetBelow(aliceBases, bobBases, n - 1)
               + (if aliceBases[n - 1] == bobBases[n - 1] then {n - 1} else {})
  {
  }

  /** The matching indices below `n`, in increasing order. */
  function MatchingBelow(aliceBases: seq<Basis>, bobBases: seq<Basis>, n: nat): (idx: seq<nat>)
    requires |aliceBases| == |bobBases| && n <= |aliceBases|
    ensures |idx| <= n
    ensures forall k :: 0 <= k < |idx| ==>
              idx[k] < n && aliceBases[idx[k]] == bobBases[idx[k]]
    ensures forall i :: 0 <= i < n && aliceBases[i] == bobBases[i] ==> i in idx
    ensures forall k, l :: 0 <= k < l < |idx| ==> idx[k] < idx[l]
  {
    if n == 0 then []
    else
      var rest := MatchingBelow(aliceBases, bobBases, n - 1);
      if aliceBases[n - 1] == bobBases[n - 1] then rest + [n - 1] else rest
  }

  /** There are as many matching indices below `n` as indices below `n` whose bases agree. */
  lemma {:induction false} MatchingBelowCount(aliceBases: seq<Basis>, bobBases: seq<Basis>, n: nat)
    requires |aliceBases| == |bobBases| && n <= |aliceBases|
    ensures |MatchingBelow(aliceBases, bobBases, n)| == |MatchSetBelow(aliceBases, bobBases, n)|
  {
    if n > 0 {
      MatchingBelowCount(aliceBases, bobBases, n - 1);
      MatchSetBelowStep(aliceBases, bobBases, n);
    }
  }

  /** Appending one more index does not change the matching indices below the old length. */
  lemma {:induction false} MatchingBelowAppend(aliceBases: seq<Basis>, bobBases: seq<Basis>,
                                              p: Basis, q: Basis, n: nat)
    requires |aliceBases| == |bobBases| && n <= |aliceBases|
    ensures MatchingBelow(aliceBases + [p], bobBases + [q], n) == MatchingBelow(aliceBases, bobBases, n)
  {
    if n > 0 {
      MatchingBelowAppend(aliceBases, bobBases, p, q, n - 1);
      assert (aliceBases + [p])[n - 1] == aliceBases[n - 1];
      assert (bobBases + [q])[n - 1] == bobBases[n - 1];
    }
  }

  /** When every index below `n` matches, the matching indices are 0, 1, ..., n-1. */
  lemma {:induction false} MatchingBelowAll(aliceBases: seq<Basis>, bobBases: seq<Basis>, n: nat)
    requires |aliceBases| == |bobBases| && n <= |aliceBases|
    requires forall i :: 0 <= i < n ==> aliceBases[i] == bobBases[i]
    ensures |MatchingBelow(aliceBases, bobBases, n)| == n
    ensures forall k :: 0 <= k < n ==> MatchingBelow(aliceBases, bobBases, n)[k] == k
  {
    if n > 0 {
      MatchingBelowAll(aliceBases, bobBases, n - 1);
    }
  }

  /** The matching indices, as the list comprehension at line 68 builds them. */
  function MatchingIndices(aliceBases: seq<Basis>, bobBases: seq<Basis>): (idx: seq<nat>)
    requires |aliceBases| == |bobBases|
    ensures |idx| == |MatchSet(aliceBases, bobBases)| <= |aliceBases|
    ensures forall k :: 0 <= k < |idx| ==>
              idx[k] < |aliceBases| && aliceBases[idx[k]] == bobBases[idx[k]]
    ensures forall i :: 0 <= i < |aliceBases| && aliceBases[i] == bobBases[i] ==> i in idx
    ensures forall k, l :: 0 <= k < l < |idx| ==> idx[k] < idx[l]
  {
    MatchingBelowCount(aliceBases, bobBases, |aliceBases|);
    MatchingBelow(aliceBases, bobBases, |aliceBases|)
  }

  /** The bits of `bits` at the positions `idx`, in the order of `idx`. */
  function Project(bits: seq<Bit>, idx: seq<nat>): (key: seq<Bit>)
    requires forall k :: 0 <= k < |idx| ==> idx[k] < |bits|
    ensures |key| == |idx|
    ensures forall k :: 0 <= k < |idx| ==> key[k] == bits[idx[k]]
  {
    seq(|idx|, k requires 0 <= k < |idx| => bits[idx[k]])
  }

  lemma ProjectSnoc(bits: seq<Bit>, idx: seq<nat>, i: nat)
    requires forall k :: 0 <= k < |idx| ==> idx[k] < |bits|
    requires i < |bits|
    ensures Project(bits, idx + [i]) == Project(bits, idx) + [bits[i]]
  {
  }

  lemma ProjectExtend(bits: seq<Bit>, b: Bit, idx: seq<nat>)
    requires forall k :: 0 <= k < |idx| ==> idx[k] < |bits|
    ensures Project(bits + [b], idx) == Project(bits, idx)
  {
  }

  /** One party's sifted key (lines 69 and 70). */
  function SiftedKey(bits: seq<Bit>, aliceBases: seq<Basis>, bobBases: seq<Basis>): (key: seq<Bit>)
    requires |bits| == |aliceBases| == |bobBases|
    ensures |key| == |MatchSet(aliceBases, bobBases)| <= |bits|
    ensures forall k :: 0 <= k < |key| ==> key[k] == bits[MatchingIndices(aliceBases, bobBases)[k]]
  {
    Project(bits, MatchingIndices(aliceBases, bobBases))
  }

  /** One more index joins the matching indices, at the end, exactly when its bases agree. */
  lemma MatchingIndicesSnoc(aliceBases: seq<Basis>, bobBases: seq<Basis>, p: Basis, q: Basis)
    requires |aliceBases| == |bobBases|
    ensures MatchingIndices(aliceBases + [p], bobBases + [q])
            == MatchingIndices(aliceBases, bobBases) + (if p == q then [|aliceBases|] else [])
  {
    var n := |aliceBases|;
    var a2, b2 := aliceBases + [p], bobBases + [q];
    MatchingBelowAppend(aliceBases, bobBases, p, q, n);
    assert a2[n] == p && b2[n] == q;
    assert MatchingBelow(a2, b2, n + 1)
           == MatchingBelow(a2, b2, n) + (if p == q then [n] else []);
  }

  /** Sifting one more index appends that index's bit when the bases agree and nothing when they do not. */
  lemma SiftedKeySnoc(bits: seq<Bit>, aliceBases: seq<Basis>, bobBases: seq<Basis>,
                      b: Bit, p: Basis, q: Basis)
    requires |bits| == |aliceBases| == |bobBases|
    ensures SiftedKey(bits + [b], aliceBases + [p], bobBases + [q])
            == SiftedKey(bits, aliceBases, bobBases) + (if p == q then [b] else [])
  {
    var n := |bits|;
    var rest := MatchingIndices(aliceBases, bobBases);
    MatchingIndicesSnoc(aliceBases, bobBases, p, q);
    ProjectExtend(bits, b, rest);
    if p == q {
      ProjectSnoc(bits + [b], rest, n);
    } else {
      assert rest + [] == rest;
    }
  }

  /** Indices whose bases disagree never influence a sifted key. */
  lemma MismatchedIndicesIgnored(bits1: seq<Bit>, bits2: seq<Bit>,
                                 aliceBases: seq<Basis>, bobBases: seq<Basis>)
    requires |bits1| == |bits2| == |aliceBases| == |bobBases|
    requires forall i :: 0 <= i < |aliceBases| && aliceBases[i] == bobBases[i] ==> bits1[i] == bits2[i]
    ensures SiftedKey(bits1, aliceBases, bobBases) == SiftedKey(bits2, aliceBases, bobBases)
  {
  }

  /** Matching everywhere keeps every bit; matching nowhere keeps none. */
  lemma SiftingExtremes(bits: seq<Bit>, aliceBases: seq<Basis>, bobBases: seq<Basis>)
    requires |bits| == |aliceBases| == |bobBases|
    ensures aliceBases == bobBases ==> SiftedKey(bits, aliceBases, bobBases) == bits
    ensures (forall i :: 0 <= i < |aliceBases| ==> aliceBases[i] != bobBases[i]) ==>
              SiftedKey(bits, aliceBases, bobBases) == []
  {
    if aliceBases == bobBases {
      MatchingBelowAll(aliceBases, bobBases, |aliceBases|);
    }
  }

  /** The sifting loop: one pass over the indices, appending both parties' bits where the bases agree. */
  method SiftKeys(aliceBits: seq<Bit>, aliceBases: seq<Basis>, bobBases: seq<Basis>, bobResults: seq<Bit>)
    returns (aliceKey: seq<Bit>, bobKey: seq<Bit>)
    requires |aliceBits| == |aliceBases| == |bobBases| == |bobResults|
    ensures |aliceKey| == |bobKey| == |MatchSet(aliceBases, bobBases)| <= |aliceBits|
    ensures aliceKey == SiftedKey(aliceBits, aliceBases, bobBases)
    ensures bobKey == SiftedKey(bobResults, aliceBases, bobBases)
  {
    aliceKey, bobKey := [], [];
    var i := 0;
    while i < |aliceBits|
      invariant 0 <= i <= |aliceBits|
      invariant aliceKey == Project(aliceBits, MatchingBelow(aliceBases, bobBases, i))
      invariant bobKey == Project(bobResults, MatchingBelow(aliceBases, bobBases, i))
    {
      if aliceBases[i] == bobBases[i] {
        ProjectSnoc(aliceBits, MatchingBelow(aliceBases, bobBases, i), i);
        ProjectSnoc(bobResults, MatchingBelow(aliceBases, bobBases, i), i);
        aliceKey := aliceKey + [aliceBits[i]];
        bobKey := bobKey + [bobResults[i]];
      }
      i := i + 1;
    }
    assert MatchingBelow(aliceBases, bobBases, i) == MatchingIndices(aliceBases, bobBases);
  }
}
