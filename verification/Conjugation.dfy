/** The gate updates of the tableau are conjugation: updating a row and then acting
    on the state after the gate is the gate applied to what the old row does. */
module Conjugation {
  import opened Sums
  import opened Paulis
  import opened Gates
  import opened Amplitudes

  lemma ExpoOneColumn(p: Pauli, p': Pauli, s: Bits, s': Bits, i: nat, n: nat)
    requires Fits(p, n) && Fits(p', n) && |s| == n && |s'| == n && i < n
    requires SameColumns(p, p', i, i, n)
    requires forall k :: 0 <= k < n && k != i ==> s[k] == s'[k]
    ensures Expo(p', s', n) - p'.r - ExpoTerm(p'.x[i], p'.z[i], s'[i])
         == Expo(p, s, n) - p.r - ExpoTerm(p.x[i], p.z[i], s[i])
  {
    hide ExpoTerm;
    var e, e' := ExpoTerms(p, s, n), ExpoTerms(p', s', n);
    SumUpdate(e, i, e'[i]);
    assert e' == e[i := e'[i]];
  }

  lemma ExpoTwoColumns(p: Pauli, p': Pauli, s: Bits, s': Bits, i: nat, j: nat, n: nat)
    requires Fits(p, n) && Fits(p', n) && |s| == n && |s'| == n && i < n && j < n && i != j
    requires SameColumns(p, p', i, j, n)
    requires forall k :: 0 <= k < n && k != i && k != j ==> s[k] == s'[k]
    ensures Expo(p', s', n) - p'.r - ExpoTerm(p'.x[i], p'.z[i], s'[i]) - ExpoTerm(p'.x[j], p'.z[j], s'[j])
         == Expo(p, s, n) - p.r - ExpoTerm(p.x[i], p.z[i], s[i]) - ExpoTerm(p.x[j], p.z[j], s[j])
  {
    hide ExpoTerm;
    var e, e' := ExpoTerms(p, s, n), ExpoTerms(p', s', n);
    SumUpdate(e, i, e'[i]);
    SumUpdate(e[i := e'[i]], j, e'[j]);
    assert e' == e[i := e'[i]][j := e'[j]];
  }

  // ---------------------------------------------------------------- phase gate

  lemma PhaseColumnExpo(r: int, r': int, x: bool, z: bool, b: bool)
    requires r' == if x && z then (r + 2) % 4 else r
    ensures (r' + ExpoTerm(x, z != x, b) + (if b then 1 else 0)
             - r - ExpoTerm(x, z, b) - (if b != x then 1 else 0)) % 4 == 0
  {
  }

  lemma PhaseConjugates(q: nat, p: Pauli, f: Amp, t: Bits, n: nat)
    requires Fits(p, n) && q < n && |t| == n
    ensures Apply(PhaseRow(p, q, n), ApplyGate(Gate.Phase(q), f, n), n)(t)
         == ApplyGate(Gate.Phase(q), Apply(p, f, n), n)(t)
  {
    hide Rot, Expo, ExpoTerm;
    var p' := PhaseRow(p, q, n);
    var u := XorBits(t, p.x);
    var e, e' := Expo(p, u, n), Expo(p', u, n);
    ExpoOneColumn(p, p', u, u, q, n);
    PhaseColumnExpo(p.r, p'.r, p.x[q], p.z[q], u[q]);
    var c, c' := if t[q] then 1 else 0, if u[q] then 1 else 0;
    RotRot(e', c', f(u));
    RotRot(c, e, f(u));
    RotSame(e' + c', c + e, f(u));
  }

  // ---------------------------------------------------------------- CNOT

  lemma CnotColumnsExpo(r: int, r': int, xc: bool, zc: bool, xt: bool, zt: bool, bc: bool, bt: bool)
    requires r' == if CnotFlips(xc, zc, xt, zt) then (r + 2) % 4 else r
    ensures (r' + ExpoTerm(xc, zc != zt, bc) + ExpoTerm(xt != xc, zt, bt)
             - r - ExpoTerm(xc, zc, bc) - ExpoTerm(xt, zt, bt != bc)) % 4 == 0
  {
  }

  lemma CnotConjugates(c: nat, t: nat, p: Pauli, f: Amp, s: Bits, n: nat)
    requires Fits(p, n) && c < n && t < n && c != t && |s| == n
    ensures Apply(CnotRow(p, c, t, n), ApplyGate(Cnot(c, t), f, n), n)(s)
         == ApplyGate(Cnot(c, t), Apply(p, f, n), n)(s)
  {
    hide Rot, Expo, ExpoTerm, CnotRow, CnotFlips;
    var p' := CnotRow(p, c, t, n);
    CnotRowPhase(p, c, t, n);
    var u := XorBits(s, p'.x);
    var v := u[t := u[t] != u[c]];
    assert v == XorBits(s[t := s[t] != s[c]], p.x);
    ExpoTwoColumns(p, p', v, u, c, t, n);
    CnotColumnsExpo(p.r, p'.r, p.x[c], p.z[c], p.x[t], p.z[t], u[c], u[t]);
    RotSame(Expo(p', u, n), Expo(p, v, n), f(v));
  }

  // ---------------------------------------------------------------- Hadamard

  lemma HadamardColumnExpo(r: int, r': int, x: bool, z: bool, b: bool)
    requires r' == if x && z then (r + 2) % 4 else r
    ensures var lhs := r' + ExpoTerm(z, x, b != z);
            (lhs + (if x && b != z then 2 else 0) - r - ExpoTerm(x, z, x)) % 4 == 0
            && (lhs + (if !x && b != z then 2 else 0) - r - ExpoTerm(x, z, !x) - (if b then 2 else 0)) % 4 == 0
  {
  }

  lemma HadamardConjugates(q: nat, p: Pauli, f: Amp, t: Bits, n: nat)
    requires Fits(p, n) && q < n && |t| == n
    ensures Apply(HadamardRow(p, q, n), ApplyGate(Gate.Hadamard(q), f, n), n)(t)
         == ApplyGate(Gate.Hadamard(q), Apply(p, f, n), n)(t)
  {
    hide Rot, Expo, ExpoTerm, Plus;
    var p' := HadamardRow(p, q, n);
    var x, z := p.x[q], p.z[q];
    var u := XorBits(t, p'.x);
    var same, other := u[q := x], u[q := !x];
    assert same == XorBits(t[q := false], p.x);
    assert other == XorBits(t[q := true], p.x);
    ExpoOneColumn(p, p', same, u, q, n);
    ExpoOneColumn(p, p', other, u, q, n);
    HadamardColumnExpo(p.r, p'.r, x, z, t[q]);
    var e, s, o := Expo(p', u, n), Expo(p, same, n), Expo(p, other, n);
    HadamardSum(e, s, o, u[q], t[q], x, f(same), f(other));
  }

  lemma HadamardSum(e: int, s: int, o: int, ub: bool, tb: bool, x: bool, fs: Gauss, fo: Gauss)
    requires (e + (if x && ub then 2 else 0) - s) % 4 == 0
    requires (e + (if !x && ub then 2 else 0) - o - (if tb then 2 else 0)) % 4 == 0
    ensures Rot(e, if x then Plus(fo, Rot(if ub then 2 else 0, fs)) else Plus(fs, Rot(if ub then 2 else 0, fo)))
         == Plus(Rot(s, fs), Rot(if tb then 2 else 0, Rot(o, fo)))
  {
    hide Rot, Plus;
    var m, k := if ub then 2 else 0, if tb then 2 else 0;
    var a, b := if x then m else 0, if x then 0 else m;
    RotPlus(e, Rot(a, fs), Rot(b, fo));
    RotRot(e, a, fs);
    RotRot(e, b, fo);
    RotRot(k, o, fo);
    RotSame(e + a, s, fs);
    RotSame(e + b, k + o, fo);
    PlusCommutes(fo, Rot(a, fs));
    RotZero(fs);
    RotZero(fo);
    PlusCommutes(Rot(e + a, fs), Rot(e + b, fo));
    RotPlus(e, Rot(b, fo), Rot(a, fs));
  }

  lemma PlusCommutes(a: Gauss, b: Gauss)
    ensures Plus(a, b) == Plus(b, a)
  {
  }

  lemma RotZero(a: Gauss)
    ensures Rot(0, a) == a
  {
  }

  /** Gate updates mean conjugation, for every gate, row, state and basis string. */
  lemma GateConjugates(g: Gate, p: Pauli, f: Amp, n: nat)
    requires Fits(p, n) && Acts(g, n)
    ensures SameState(Apply(GateRow(g, p, n), ApplyGate(g, f, n), n), ApplyGate(g, Apply(p, f, n), n), n)
  {
    hide Apply, ApplyGate, CnotRow, HadamardRow, PhaseRow;
    forall t: Bits | |t| == n
      ensures Apply(GateRow(g, p, n), ApplyGate(g, f, n), n)(t) == ApplyGate(g, Apply(p, f, n), n)(t)
    {
      match g
      case Cnot(c, d) => CnotConjugates(c, d, p, f, t, n);
      case Hadamard(q) => HadamardConjugates(q, p, f, t, n);
      case Phase(q) => PhaseConjugates(q, p, f, t, n);
    }
  }
}
