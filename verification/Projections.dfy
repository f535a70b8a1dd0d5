/** Projection onto an outcome of a computational-basis measurement, and the
    weight of each outcome in an unnormalised state. */
module Projections {
  import opened Paulis
  import opened Gates
  import opened Amplitudes
  import opened Conjugation

  /** Outcome o of qubit b has nonzero probability in f. */
  ghost predicate Possible(f: Amp, b: nat, o: bool, n: nat)
    requires b < n
  {
    Nonzero(Project(f, b, o, n), n)
  }

  // ---------------------------------------------------------------- gates

  lemma GateSame(g: Gate, f: Amp, h: Amp, n: nat)
    requires Acts(g, n) && SameState(f, h, n)
    ensures SameState(ApplyGate(g, f, n), ApplyGate(g, h, n), n)
  {
    hide Rot, Plus;
  }

  lemma GateStabilises(g: Gate, p: Pauli, f: Amp, n: nat)
    requires Fits(p, n) && Acts(g, n) && Stabilises(p, f, n)
    ensures Stabilises(GateRow(g, p, n), ApplyGate(g, f, n), n)
  {
    hide Apply, ApplyGate, GateRow;
    GateConjugates(g, p, f, n);
    GateSame(g, Apply(p, f, n), f, n);
  }

  lemma RotNonzero(k: int, a: Gauss)
    requires a != ZERO
    ensures Rot(k, a) != ZERO
  {
  }

  /** A gate never maps a nonzero state to zero. */
  lemma GateNonzero(g: Gate, f: Amp, n: nat)
    requires Acts(g, n) && Nonzero(f, n)
    ensures Nonzero(ApplyGate(g, f, n), n)
  {
    var s: Bits :| |s| == n && f(s) != ZERO;
    match g
    case Cnot(c, t) =>
      var u := s[t := s[t] != s[c]];
      assert u[t := u[t] != u[c]] == s;
      assert ApplyGate(g, f, n)(u) == f(s);
    case Phase(q) =>
      RotNonzero(if s[q] then 1 else 0, f(s));
      assert ApplyGate(g, f, n)(s) != ZERO;
    case Hadamard(q) =>
      var s0, s1 := s[q := false], s[q := true];
      assert s == if s[q] then s1 else s0;
      assert s0[q := false] == s0 && s0[q := true] == s1 && s1[q := false] == s0 && s1[q := true] == s1;
      var a0, a1 := ApplyGate(g, f, n)(s0), ApplyGate(g, f, n)(s1);
      assert a0 == Plus(f(s0), f(s1)) && a1 == Plus(f(s0), Rot(2, f(s1)));
      assert a0 != ZERO || a1 != ZERO;
  }

  // ---------------------------------------------------------------- projections

  lemma ProjectKeeps(p: Pauli, f: Amp, b: nat, o: bool, n: nat)
    requires Fits(p, n) && b < n && !p.x[b] && Stabilises(p, f, n)
    ensures Stabilises(p, Project(f, b, o, n), n)
  {
    hide Expo, Rot;
    forall t: Bits | |t| == n
      ensures Apply(p, Project(f, b, o, n), n)(t) == Project(f, b, o, n)(t)
    {
      assert Apply(p, f, n)(t) == f(t);
      RotOfZero(Expo(p, XorBits(t, p.x), n));
    }
  }

  lemma RotOfZero(k: int)
    ensures Rot(k, ZERO) == ZERO
  {
  }

  lemma UnitZActs(f: Amp, b: nat, o: bool, t: Bits, n: nat)
    requires b < n && |t| == n
    ensures Apply(UnitZ(n, b, OutcomePhase(o)), f, n)(t) == Rot(if t[b] == o then 0 else 2, f(t))
  {
    hide Rot;
    var p := UnitZ(n, b, OutcomePhase(o));
    assert XorBits(t, p.x) == t;
    var id := Identity(n);
    assert forall j :: 0 <= j < n ==> ExpoTerms(id, t, n)[j] == 0;
    Sums.SumAllZero(ExpoTerms(id, t, n));
    ExpoOneColumn(id, p, t, t, b, n);
    RotSame(Expo(p, t, n), if t[b] == o then 0 else 2, f(t));
  }

  /** +Z_b (o false) or -Z_b (o true) stabilises f exactly when f lives on t[b] == o. */
  lemma UnitZStabilises(f: Amp, b: nat, o: bool, n: nat)
    requires b < n
    ensures Stabilises(UnitZ(n, b, OutcomePhase(o)), f, n)
      <==> forall t: Bits :: |t| == n && t[b] != o ==> f(t) == ZERO
  {
    hide Apply;
    var p := UnitZ(n, b, OutcomePhase(o));
    forall t: Bits | |t| == n
      ensures Apply(p, f, n)(t) == f(t) <==> (t[b] != o ==> f(t) == ZERO)
    {
      UnitZActs(f, b, o, t, n);
    }
  }

  /** A definite qubit: its value is the only possible outcome, and projecting onto
      it changes nothing. */
  lemma DefiniteOutcome(f: Amp, b: nat, o: bool, n: nat)
    requires b < n && Nonzero(f, n) && Stabilises(UnitZ(n, b, OutcomePhase(o)), f, n)
    ensures Possible(f, b, o, n) && !Possible(f, b, !o, n)
    ensures SameState(Project(f, b, o, n), f, n)
  {
    UnitZStabilises(f, b, o, n);
    var s: Bits :| |s| == n && f(s) != ZERO;
    assert Project(f, b, o, n)(s) != ZERO;
  }

  /** No amplitude outside t[b] == o. */
  ghost predicate Settled(f: Amp, b: nat, o: bool, n: nat)
    requires b < n
  {
    forall t: Bits :: |t| == n && t[b] != o ==> f(t) == ZERO
  }

  lemma ProjectSettles(f: Amp, b: nat, o: bool, n: nat)
    requires b < n
    ensures Settled(Project(f, b, o, n), b, o, n)
  {
  }

  lemma SettledImpossible(f: Amp, b: nat, o: bool, n: nat)
    requires b < n && Settled(f, b, o, n)
    ensures !Possible(f, b, !o, n)
  {
  }

  lemma ImpossibleSettles(f: Amp, b: nat, o: bool, n: nat)
    requires b < n && !Possible(f, b, !o, n)
    ensures Settled(f, b, o, n)
  {
    forall t: Bits | |t| == n && t[b] != o ensures f(t) == ZERO {
      assert Project(f, b, !o, n)(t) == f(t);
    }
  }

  // ---------------------------------------------------------------- weights

  ghost function Total(n: nat, f: Bits -> int): int
  {
    if n == 0 then f([]) else
      Total(n - 1, (t: Bits) => f([false] + t)) + Total(n - 1, (t: Bits) => f([true] + t))
  }

  lemma {:induction false} TotalSame(n: nat, f: Bits -> int, g: Bits -> int)
    requires forall t: Bits :: |t| == n ==> f(t) == g(t)
    ensures Total(n, f) == Total(n, g)
  {
    if n > 0 {
      TotalSame(n - 1, (t: Bits) => f([false] + t), (t: Bits) => g([false] + t));
      TotalSame(n - 1, (t: Bits) => f([true] + t), (t: Bits) => g([true] + t));
    }
  }

  function Shift(f: Bits -> int, x: Bits): Bits -> int
  {
    (t: Bits) => if |t| == |x| then f(XorBits(t, x)) else 0
  }

  lemma XorHead(o: bool, t: Bits, x: Bits)
    requires |x| == |t| + 1
    ensures XorBits([o] + t, x) == [o != x[0]] + XorBits(t, x[1..])
  {
  }

  lemma {:induction false} TotalShift(n: nat, f: Bits -> int, x: Bits)
    requires |x| == n
    ensures Total(n, Shift(f, x)) == Total(n, f)
  {
    if n == 0 {
      assert XorBits([], x) == [];
    } else {
      var y := x[1..];
      assert [false != x[0]] == [x[0]] && [true != x[0]] == [!x[0]];
      var f0, f1 := (t: Bits) => f([false] + t), (t: Bits) => f([true] + t);
      var a, b := if x[0] then f1 else f0, if x[0] then f0 else f1;
      forall t: Bits | |t| == n - 1
        ensures Shift(f, x)([false] + t) == Shift(a, y)(t) && Shift(f, x)([true] + t) == Shift(b, y)(t)
      {
        XorHead(false, t, x);
        XorHead(true, t, x);
      }
      TotalSame(n - 1, (t: Bits) => Shift(f, x)([false] + t), Shift(a, y));
      TotalSame(n - 1, (t: Bits) => Shift(f, x)([true] + t), Shift(b, y));
      TotalShift(n - 1, a, y);
      TotalShift(n - 1, b, y);
    }
  }

  lemma {:induction false} TotalNonnegative(n: nat, f: Bits -> int)
    requires forall t: Bits :: |t| == n ==> f(t) >= 0
    ensures Total(n, f) >= 0
  {
    if n > 0 {
      TotalNonnegative(n - 1, (t: Bits) => f([false] + t));
      TotalNonnegative(n - 1, (t: Bits) => f([true] + t));
    }
  }

  lemma {:induction false} TotalAbove(n: nat, f: Bits -> int, s: Bits)
    requires (forall t: Bits :: |t| == n ==> f(t) >= 0) && |s| == n && f(s) > 0
    ensures Total(n, f) > 0
  {
    if n == 0 {
      assert s == [];
    } else {
      var f0, f1 := (t: Bits) => f([false] + t), (t: Bits) => f([true] + t);
      TotalNonnegative(n - 1, f0);
      TotalNonnegative(n - 1, f1);
      assert s == [s[0]] + s[1..];
      TotalAbove(n - 1, if s[0] then f1 else f0, s[1..]);
    }
  }

  lemma TotalPositive(n: nat, f: Bits -> int)
    requires forall t: Bits :: |t| == n ==> f(t) >= 0
    ensures Total(n, f) >= 0
    ensures (exists t: Bits :: |t| == n && f(t) > 0) ==> Total(n, f) > 0
  {
    hide Total;
    TotalNonnegative(n, f);
    if t: Bits :| |t| == n && f(t) > 0 { TotalAbove(n, f, t); }
  }

  function Square(a: Gauss): int
  {
    a.re * a.re + a.im * a.im
  }

  lemma SquareRot(k: int, a: Gauss)
    ensures Square(Rot(k, a)) == Square(a) >= 0
  {
  }

  /** The squared length of the component of f with outcome o at qubit b: the Born
      probability of that outcome, up to the common factor 1 / (Weight + Weight'). */
  ghost function Weight(f: Amp, b: nat, o: bool, n: nat): int
    requires b < n
  {
    Total(n, (t: Bits) => Square(Project(f, b, o, n)(t)))
  }

  lemma WeightPositive(f: Amp, b: nat, o: bool, n: nat)
    requires b < n && Possible(f, b, o, n)
    ensures Weight(f, b, o, n) > 0
  {
    hide Project;
    var sq := (t: Bits) => Square(Project(f, b, o, n)(t));
    forall t: Bits ensures sq(t) >= 0 { SquareRot(0, Project(f, b, o, n)(t)); }
    var s: Bits :| |s| == n && Project(f, b, o, n)(s) != ZERO;
    assert sq(s) > 0 by { SquareNonzero(Project(f, b, o, n)(s)); }
    TotalPositive(n, sq);
  }

  lemma {:induction false} TotalSum(n: nat, f: Bits -> int, g: Bits -> int, h: Bits -> int)
    requires forall t: Bits :: |t| == n ==> h(t) == f(t) + g(t)
    ensures Total(n, h) == Total(n, f) + Total(n, g)
  {
    if n > 0 {
      TotalSum(n - 1, (t: Bits) => f([false] + t), (t: Bits) => g([false] + t), (t: Bits) => h([false] + t));
      TotalSum(n - 1, (t: Bits) => f([true] + t), (t: Bits) => g([true] + t), (t: Bits) => h([true] + t));
    }
  }

  /** The indicator of a single string sums to 1. */
  lemma {:induction false} TotalPoint(n: nat, f: Bits -> int, s: Bits)
    requires |s| == n && forall t: Bits :: |t| == n ==> f(t) == if t == s then 1 else 0
    ensures Total(n, f) == 1
  {
    if n > 0 {
      var f0, f1, u := (t: Bits) => f([false] + t), (t: Bits) => f([true] + t), s[1..];
      forall t: Bits | |t| == n - 1
        ensures f0(t) == (if !s[0] && t == u then 1 else 0) && f1(t) == (if s[0] && t == u then 1 else 0)
      {
        assert ([false] + t == s) == (!s[0] && t == u) by { assert s == [s[0]] + u; assert ([false] + t)[1..] == t; }
        assert ([true] + t == s) == (s[0] && t == u) by { assert s == [s[0]] + u; assert ([true] + t)[1..] == t; }
      }
      if s[0] {
        TotalZero(n - 1, f0);
        TotalPoint(n - 1, f1, u);
      } else {
        TotalPoint(n - 1, f0, u);
        TotalZero(n - 1, f1);
      }
    }
  }

  lemma ImpossibleWeight(f: Amp, b: nat, o: bool, n: nat)
    requires b < n && !Possible(f, b, o, n)
    ensures Weight(f, b, o, n) == 0
  {
    hide Project;
    TotalZero(n, (t: Bits) => Square(Project(f, b, o, n)(t)));
  }

  lemma {:induction false} TotalZero(n: nat, f: Bits -> int)
    requires forall t: Bits :: |t| == n ==> f(t) == 0
    ensures Total(n, f) == 0
  {
    if n > 0 {
      TotalZero(n - 1, (t: Bits) => f([false] + t));
      TotalZero(n - 1, (t: Bits) => f([true] + t));
    }
  }

  lemma SquareNonzero(a: Gauss)
    requires a != ZERO
    ensures Square(a) > 0
  {
    assert a.re != 0 ==> a.re * a.re > 0;
    assert a.im != 0 ==> a.im * a.im > 0;
  }

  /** When a stabiliser of f flips qubit b, the two outcomes are equally likely. */
  lemma FairOutcomes(p: Pauli, f: Amp, b: nat, n: nat)
    requires Fits(p, n) && b < n && p.x[b] && Stabilises(p, f, n) && Nonzero(f, n)
    ensures Possible(f, b, false, n) && Possible(f, b, true, n)
    ensures Weight(f, b, false, n) == Weight(f, b, true, n) > 0
  {
    hide Square, Apply, Stabilises;
    var g0, g1 := (t: Bits) => Square(Project(f, b, false, n)(t)), (t: Bits) => Square(Project(f, b, true, n)(t));
    forall t: Bits | |t| == n ensures Shift(g0, p.x)(t) == g1(t) {
      FlippedWeight(p, f, b, t, n);
    }
    TotalSame(n, Shift(g0, p.x), g1);
    TotalShift(n, g0, p.x);
    var s: Bits :| |s| == n && f(s) != ZERO;
    FlippedAmplitude(p, f, s, n);
    assert Project(f, b, s[b], n)(s) != ZERO;
    assert Project(f, b, !s[b], n)(XorBits(s, p.x)) != ZERO;
    WeightPositive(f, b, false, n);
  }

  lemma FlippedWeight(p: Pauli, f: Amp, b: nat, t: Bits, n: nat)
    requires Fits(p, n) && Stabilises(p, f, n) && |t| == n && b < n && p.x[b]
    ensures Square(Project(f, b, false, n)(XorBits(t, p.x))) == Square(Project(f, b, true, n)(t))
  {
    hide Square, Apply, Stabilises;
    FlippedAmplitude(p, f, t, n);
  }

  lemma FlippedAmplitude(p: Pauli, f: Amp, t: Bits, n: nat)
    requires Fits(p, n) && Stabilises(p, f, n) && |t| == n
    ensures Square(f(t)) == Square(f(XorBits(t, p.x)))
    ensures f(t) != ZERO ==> f(XorBits(t, p.x)) != ZERO
  {
    hide Expo, Rot;
    assert Apply(p, f, n)(t) == f(t);
    SquareRot(Expo(p, XorBits(t, p.x), n), f(XorBits(t, p.x)));
    RotOfZero(Expo(p, XorBits(t, p.x), n));
  }
}
