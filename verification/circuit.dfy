/**
 The per-qubit BB84 circuit (agreementNoise.py, lines 25-57) and what the
 four-state interpreter makes of it.

 For each index the script builds one circuit: Alice's encoding, then either
 optional bit-flip noise (Eve absent) or Eve's intercept-and-resend block
 (Eve present), then Bob's measurement. The random draws the script makes
 while building it are explicit fields of `Round`.
 */
module Circuit {
  import opened Qubit

  /** Everything one index of the run contributes: the parties' choices and the
      two draws made while building the circuit (the noise coin, only used when
      Eve is absent, and Eve's re-encoded bit, only used when she is present). */
  datatype Round = Round(
    aliceBit: Bit,
    aliceBasis: Basis,
    bobBasis: Basis,
    eveBasis: Basis,
    noiseFlip: bool,
    eveBit: Bit)

  /** Preparation of bit `b` in basis `p` from |0>: X if the bit is 1, then H if the basis is diagonal. */
  function Encode(b: Bit, p: Basis): (c: seq<Gate>)
    ensures Count(c, X) == b
    ensures Measure !in c && Reset !in c
  {
    (if b == 1 then [X] else []) + (if p == Diagonal then [H] else [])
  }

  /** Measurement in basis `p`: H if the basis is diagonal, then measure into classical bit 0. */
  function MeasureIn(p: Basis): (c: seq<Gate>)
    ensures Count(c, Measure) == 1 && Count(c, X) == 0 && Reset !in c
    ensures c[|c| - 1] == Measure
  {
    (if p == Diagonal then [H] else []) + [Measure]
  }

  /** The ambient bit-flip: one X, only when Eve is absent and the noise coin came up. */
  function Noise(evePresent: bool, flip: bool): (c: seq<Gate>)
    ensures c != [] <==> !evePresent && flip
    ensures Measure !in c && Reset !in c
  {
    if !evePresent && flip then [X] else []
  }

  /** Eve's block, only when she is present: measure in her basis, reset, re-encode her own bit in her basis. */
  function Intercept(evePresent: bool, p: Basis, e: Bit): (c: seq<Gate>)
    ensures c != [] <==> evePresent
    ensures evePresent ==> Count(c, Measure) == 1 && Count(c, X) == e && Reset in c
  {
    if evePresent then
      CountAppend(MeasureIn(p), [Reset], Measure);
      CountAppend(MeasureIn(p) + [Reset], Encode(e, p), Measure);
      CountAppend(MeasureIn(p), [Reset], X);
      CountAppend(MeasureIn(p) + [Reset], Encode(e, p), X);
      MeasureIn(p) + [Reset] + Encode(e, p)
    else
      []
  }

  /** Everything before Bob's measurement. */
  function Transmission(r: Round, evePresent: bool): seq<Gate> {
    Encode(r.aliceBit, r.aliceBasis)
      + Noise(evePresent, r.noiseFlip)
      + Intercept(evePresent, r.eveBasis, r.eveBit)
  }

  /** The whole circuit the script appends for one index. Its gate census:
      noise and Eve's block never both occur, Eve adds a second measure and
      the only reset, and the X gates are Alice's bit plus either Eve's bit
      or the noise flip. */
  function BuildCircuit(r: Round, evePresent: bool): (c: seq<Gate>)
    ensures Noise(evePresent, r.noiseFlip) == [] || Intercept(evePresent, r.eveBasis, r.eveBit) == []
    ensures Count(c, Measure) == (if evePresent then 2 else 1)
    ensures Reset in c <==> evePresent
    ensures Count(c, X) == r.aliceBit + (if evePresent then r.eveBit else if r.noiseFlip then 1 else 0)
    ensures c[|c| - 1] == Measure
  {
    var enc := Encode(r.aliceBit, r.aliceBasis);
    var noise := Noise(evePresent, r.noiseFlip);
    var icpt := Intercept(evePresent, r.eveBasis, r.eveBit);
    var bob := MeasureIn(r.bobBasis);
    CountAppend(enc, noise, Measure);
    CountAppend(enc + noise, icpt, Measure);
    CountAppend(enc + noise + icpt, bob, Measure);
    CountAppend(enc, noise, X);
    CountAppend(enc + noise, icpt, X);
    CountAppend(enc + noise + icpt, bob, X);
    CountAppend(enc, noise, Reset);
    CountAppend(enc + noise, icpt, Reset);
    CountAppend(enc + noise + icpt, bob, Reset);
    assert noise == [] || noise == [X];
    Transmission(r, evePresent) + MeasureIn(r.bobBasis)
  }

  /** The simulator state when the qubit reaches Bob. */
  function ArrivingState(r: Round, evePresent: bool, coins: Coins): Sim {
    Exec(Transmission(r, evePresent), Initial, coins)
  }

  /** The classical bit read back for this index. Bob's measurement comes last
      and overwrites whatever Eve's wrote, so it is Bob's reading of the qubit
      that reaches him: its bit when he uses its basis, the next draw otherwise.
      On every input and every draw sequence this agrees with the channel rule. */
  function BobBit(r: Round, evePresent: bool, coins: Coins): (b: Bit)
    ensures var s := ArrivingState(r, evePresent, coins);
            b == (if BasisOf(s.q) == r.bobBasis then BitOf(s.q) else coins(s.draws))
    ensures b == ChannelOutcome(r, evePresent, coins)
  {
    ArrivingStateRule(r, evePresent, coins);
    ExecAppend(Transmission(r, evePresent), MeasureIn(r.bobBasis), Initial, coins);
    MeasureInRule(r.bobBasis, ArrivingState(r, evePresent, coins), coins);
    Exec(BuildCircuit(r, evePresent), Initial, coins).clbit
  }

  /** The BB84 channel rule, stated without gates: matching bases give the
      encoded bit, a mismatch gives the next random draw. Eve's re-sent qubit
      carries her own bit in her basis; noise flips only a rectilinear encoding. */
  function ChannelOutcome(r: Round, evePresent: bool, coins: Coins): Bit {
    if !evePresent then
      if r.bobBasis != r.aliceBasis then coins(0)
      else if r.noiseFlip && r.aliceBasis == Rectilinear then 1 - r.aliceBit
      else r.aliceBit
    else if r.bobBasis == r.eveBasis then r.eveBit
    else coins(if r.eveBasis == r.aliceBasis then 0 else 1)
  }

  /** Encoding from |0> yields exactly the state that encodes (b, p), touching nothing else. */
  lemma EncodePrepares(b: Bit, p: Basis, s: Sim, coins: Coins)
    requires s.q == Zero
    ensures Exec(Encode(b, p), s, coins) == s.(q := Prepared(b, p))
  {
    var hx := if b == 1 then [X] else [];
    var hh := if p == Diagonal then [H] else [];
    ExecAppend(hx, hh, s, coins);
  }

  /** Measuring in basis `p` is deterministic when `p` is the state's basis and
      reads the next draw otherwise; the classical bit is overwritten either way. */
  lemma MeasureInRule(p: Basis, s: Sim, coins: Coins)
    ensures Exec(MeasureIn(p), s, coins).clbit
              == (if BasisOf(s.q) == p then BitOf(s.q) else coins(s.draws))
    ensures Exec(MeasureIn(p), s, coins).draws
              == s.draws + (if BasisOf(s.q) == p then 0 else 1)
  {
  }

  /** After Eve's block the qubit encodes her bit in her basis, whatever arrived. */
  lemma InterceptResends(p: Basis, e: Bit, s: Sim, coins: Coins)
    ensures Exec(Intercept(true, p, e), s, coins).q == Prepared(e, p)
    ensures Exec(Intercept(true, p, e), s, coins).draws
              == s.draws + (if BasisOf(s.q) == p then 0 else 1)
  {
    var m := Exec(MeasureIn(p), s, coins);
    MeasureInRule(p, s, coins);
    ExecAppend(MeasureIn(p), [Reset], s, coins);
    ExecAppend(MeasureIn(p) + [Reset], Encode(e, p), s, coins);
    EncodePrepares(e, p, Exec([Reset], m, coins), coins);
  }

  /** Where the qubit stands when it reaches Bob: Alice's encoding, possibly
      flipped by noise, when Eve is absent; Eve's own encoding when she is present. */
  lemma ArrivingStateRule(r: Round, evePresent: bool, coins: Coins)
    ensures !evePresent ==>
              ArrivingState(r, evePresent, coins).draws == 0 &&
              ArrivingState(r, evePresent, coins).q ==
                (if r.noiseFlip then ApplyX(Prepared(r.aliceBit, r.aliceBasis))
                 else Prepared(r.aliceBit, r.aliceBasis))
    ensures evePresent ==>
              ArrivingState(r, evePresent, coins).q == Prepared(r.eveBit, r.eveBasis) &&
              ArrivingState(r, evePresent, coins).draws ==
                (if r.eveBasis == r.aliceBasis then 0 else 1)
  {
    var enc := Encode(r.aliceBit, r.aliceBasis);
    var noise := Noise(evePresent, r.noiseFlip);
    var icpt := Intercept(evePresent, r.eveBasis, r.eveBit);
    EncodePrepares(r.aliceBit, r.aliceBasis, Initial, coins);
    var s1 := Exec(enc, Initial, coins);
    ExecAppend(enc, noise, Initial, coins);
    ExecAppend(enc + noise, icpt, Initial, coins);
    var s2 := Exec(noise, s1, coins);
    if evePresent {
      assert noise == [];
      InterceptResends(r.eveBasis, r.eveBit, s2, coins);
    } else {
      assert icpt == [];
    }
  }

  /** Ideal channel: no Eve, no noise, matching bases, so Bob reads Alice's bit whatever the draws. */
  lemma IdealChannel(r: Round, coins: Coins)
    requires !r.noiseFlip && r.aliceBasis == r.bobBasis
    ensures BobBit(r, false, coins) == r.aliceBit
  {
  }

  /** Noisy channel with matching bases: the X flips Bob's bit for a rectilinear
      encoding and leaves a diagonal one unchanged, since X fixes Plus and Minus. */
  lemma NoisyChannel(r: Round, coins: Coins)
    requires r.noiseFlip && r.aliceBasis == r.bobBasis
    ensures r.aliceBasis == Rectilinear ==> BobBit(r, false, coins) == 1 - r.aliceBit
    ensures r.aliceBasis == Diagonal ==> BobBit(r, false, coins) == r.aliceBit
  {
  }

  /** With Eve present the qubit reaching Bob does not depend on Alice's bit or basis. */
  lemma EveErasesAlice(r: Round, aliceBit: Bit, aliceBasis: Basis, coins: Coins)
    ensures ArrivingState(r, true, coins).q
              == ArrivingState(r.(aliceBit := aliceBit, aliceBasis := aliceBasis), true, coins).q
  {
    ArrivingStateRule(r, true, coins);
    ArrivingStateRule(r.(aliceBit := aliceBit, aliceBasis := aliceBasis), true, coins);
  }

  /** Eve present and Bob measuring in Eve's basis: Bob reads Eve's re-encoded bit. */
  lemma BobReadsEveBit(r: Round, coins: Coins)
    requires r.bobBasis == r.eveBasis
    ensures BobBit(r, true, coins) == r.eveBit
  {
  }
}
