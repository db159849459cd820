/**
 A single-qubit interpreter that stands in for the circuit simulator.

 The circuits built for BB84 only use X, H, measure and reset on a qubit that
 starts in |0>, so the qubit is always one of the four BB84 states |0>, |1>,
 |+>, |->. Global phase is unobservable here and is dropped: X|-> = -|-> is
 written as Minus. Measurement is in the computational basis; on Plus or Minus
 its outcome is read from an explicit coin stream instead of a random source.
 */
module Qubit {

  /** A classical bit, stored as the integer 0 or 1 like the script's arrays. */
  type Bit = b: int | 0 <= b <= 1

  /** A basis choice; the script encodes Rectilinear as 0 and Diagonal as 1. */
  datatype Basis = Rectilinear | Diagonal

  /** The four states the qubit can be in. */
  datatype QState = Zero | One | Plus | Minus

  /** The gate set the circuits use; measure and reset act on qubit 0 and classical bit 0. */
  datatype Gate = X | H | Measure | Reset

  /** The simulator's random outcomes: draw k is `coins(k)`. */
  type Coins = nat -> Bit

  /** Simulator state: the qubit, classical bit 0, and how many random draws were used. */
  datatype Sim = Sim(q: QState, clbit: Bit, draws: nat)

  /** A fresh one-qubit, one-bit circuit: qubit |0>, classical bit 0, no draws used. */
  const Initial: Sim := Sim(Zero, 0, 0)

  /** The basis in which a state is a definite bit. */
  function BasisOf(q: QState): Basis {
    match q
    case Zero => Rectilinear
    case One => Rectilinear
    case Plus => Diagonal
    case Minus => Diagonal
  }

  /** The bit a state encodes in its own basis. */
  function BitOf(q: QState): Bit {
    match q
    case Zero => 0
    case One => 1
    case Plus => 0
    case Minus => 1
  }

  /** The state that encodes bit `b` in basis `p`. */
  function Prepared(b: Bit, p: Basis): (q: QState)
    ensures BitOf(q) == b && BasisOf(q) == p
  {
    match p
    case Rectilinear => if b == 0 then Zero else One
    case Diagonal => if b == 0 then Plus else Minus
  }

  /** Every state is exactly one (bit, basis) encoding: `Prepared` and (`BitOf`, `BasisOf`) are inverse. */
  lemma PreparedIsBijective(q: QState, b: Bit, p: Basis)
    ensures Prepared(BitOf(q), BasisOf(q)) == q
    ensures q == Prepared(b, p) <==> BitOf(q) == b && BasisOf(q) == p
  {
  }

  /** The X gate: flips the bit of a rectilinear state, leaves diagonal states unchanged. */
  function ApplyX(q: QState): (r: QState)
    ensures BasisOf(r) == BasisOf(q)
    ensures BasisOf(q) == Rectilinear ==> BitOf(r) == 1 - BitOf(q)
    ensures BasisOf(q) == Diagonal ==> r == q
  {
    match q
    case Zero => One
    case One => Zero
    case Plus => Plus
    case Minus => Minus
  }

  /** The H gate: keeps the encoded bit and switches the basis. */
  function ApplyH(q: QState): (r: QState)
    ensures BitOf(r) == BitOf(q)
    ensures BasisOf(r) != BasisOf(q)
  {
    match q
    case Zero => Plus
    case One => Minus
    case Plus => Zero
    case Minus => One
  }

  /** X and H each undo themselves. */
  lemma GatesAreInvolutions(q: QState)
    ensures ApplyX(ApplyX(q)) == q
    ensures ApplyH(ApplyH(q)) == q
  {
  }

  /** One gate applied to the simulator state. */
  function Step(s: Sim, g: Gate, coins: Coins): (r: Sim)
    ensures g == Measure && BasisOf(s.q) == Rectilinear ==>
              r == s.(clbit := BitOf(s.q))
    ensures g == Measure && BasisOf(s.q) == Diagonal ==>
              r == Sim(Prepared(coins(s.draws), Rectilinear), coins(s.draws), s.draws + 1)
    ensures g != Measure ==> r.clbit == s.clbit && r.draws == s.draws
    ensures g == Reset ==> r.q == Zero
  {
    match g
    case X => s.(q := ApplyX(s.q))
    case H => s.(q := ApplyH(s.q))
    case Reset => s.(q := Zero)
    case Measure =>
      match s.q
      case Zero => s.(clbit := 0)
      case One => s.(clbit := 1)
      case Plus => Sim(if coins(s.draws) == 0 then Zero else One, coins(s.draws), s.draws + 1)
      case Minus => Sim(if coins(s.draws) == 0 then Zero else One, coins(s.draws), s.draws + 1)
  }

  /** Number of occurrences of gate `g` in a circuit. */
  function Count(c: seq<Gate>, g: Gate): (k: nat)
    ensures k <= |c|
    ensures k == 0 <==> g !in c
  {
    if |c| == 0 then 0 else (if c[0] == g then 1 else 0) + Count(c[1..], g)
  }

  lemma {:induction false} CountAppend(a: seq<Gate>, b: seq<Gate>, g: Gate)
    ensures Count(a + b, g) == Count(a, g) + Count(b, g)
  {
    if |a| == 0 {
      assert a + b == b;
    } else {
      assert (a + b)[1..] == a[1..] + b;
      CountAppend(a[1..], b, g);
    }
  }

  /** Runs a circuit gate by gate from state `s`. */
  function Exec(c: seq<Gate>, s: Sim, coins: Coins): (r: Sim)
    ensures s.draws <= r.draws <= s.draws + Count(c, Measure)
    ensures Measure !in c ==> r.clbit == s.clbit
    ensures c != [] && c[|c| - 1] == Reset ==> r.q == Zero
  {
    if |c| == 0 then s else Exec(c[1..], Step(s, c[0], coins), coins)
  }

  /** Running two circuits one after the other is running their concatenation. */
  lemma {:induction false} ExecAppend(a: seq<Gate>, b: seq<Gate>, s: Sim, coins: Coins)
    ensures Exec(a + b, s, coins) == Exec(b, Exec(a, s, coins), coins)
  {
    if |a| == 0 {
      assert a + b == b;
    } else {
      assert (a + b)[1..] == a[1..] + b;
      ExecAppend(a[1..], b, Step(s, a[0], coins), coins);
    }
  }
}
