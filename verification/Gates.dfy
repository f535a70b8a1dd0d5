/** The three gate updates of one tableau row (state/chp_state.hpp:155-202) and the
    Pauli gates that run_program composes from them (lines 579-604). */
module Gates {
  import opened Sums
  import opened Paulis

  datatype Gate = Cnot(control: nat, target: nat) | Hadamard(qubit: nat) | Phase(qubit: nat)

  /** The columns a gate touches exist, and a CNOT has two different ones. */
  predicate Acts(g: Gate, n: nat)
  {
    match g
    case Cnot(c, t) => c < n && t < n && c != t
    case Hadamard(q) => q < n
    case Phase(q) => q < n
  }

  function CnotRow(p: Pauli, c: nat, t: nat, n: nat): (p': Pauli)
    requires Fits(p, n) && c < n && t < n
    ensures Fits(p', n)
  {
    var x := if p.x[c] then p.x[t := !p.x[t]] else p.x;
    var z := if p.z[t] then p.z[c := !p.z[c]] else p.z;
    var flip := (x[c] && z[t] && x[t] && z[c]) || (x[c] && z[t] && !x[t] && !z[c]);
    Pauli(x, z, if flip then (p.r + 2) % 4 else p.r)
  }

  function HadamardRow(p: Pauli, q: nat, n: nat): (p': Pauli)
    requires Fits(p, n) && q < n
    ensures Fits(p', n)
  {
    var x, z := p.x[q := p.z[q]], p.z[q := p.x[q]];
    Pauli(x, z, if x[q] && z[q] then (p.r + 2) % 4 else p.r)
  }

  function PhaseRow(p: Pauli, q: nat, n: nat): (p': Pauli)
    requires Fits(p, n) && q < n
    ensures Fits(p', n)
  {
    Pauli(p.x, p.z[q := p.z[q] != p.x[q]], if p.x[q] && p.z[q] then (p.r + 2) % 4 else p.r)
  }

  function GateRow(g: Gate, p: Pauli, n: nat): (p': Pauli)
    requires Fits(p, n) && Acts(g, n)
    ensures Fits(p', n)
  {
    match g
    case Cnot(c, t) => CnotRow(p, c, t, n)
    case Hadamard(q) => HadamardRow(p, q, n)
    case Phase(q) => PhaseRow(p, q, n)
  }

  /** Two operators with the same bits: only the power of i may differ. */
  predicate SameBits(p: Pauli, q: Pauli)
  {
    p.x == q.x && p.z == q.z
  }

  lemma SympBits(v: Pauli, p: Pauli, q: Pauli, n: nat)
    requires Fits(v, n) && Fits(p, n) && Fits(q, n) && SameBits(p, q)
    ensures Symp(v, p, n) == Symp(v, q, n) && Symp(p, v, n) == Symp(q, v, n)
  {
    assert SympTerms(v, p, n) == SympTerms(v, q, n);
    assert SympTerms(p, v, n) == SympTerms(q, v, n);
  }

  lemma GateTwice(g: Gate, p: Pauli, n: nat)
    requires Fits(p, n) && Acts(g, n)
    ensures SameBits(GateRow(g, GateRow(g, p, n), n), p)
  {
  }

  /** Gates keep commutation: they are symplectic maps of the bits. */
  lemma SympGate(g: Gate, p: Pauli, q: Pauli, n: nat)
    requires Fits(p, n) && Fits(q, n) && Acts(g, n)
    ensures Symp(GateRow(g, p, n), GateRow(g, q, n), n) == Symp(p, q, n)
  {
    match g
    case Cnot(c, t) => SympCnot(p, q, c, t, n);
    case Hadamard(a) => SympHadamard(p, q, a, n);
    case Phase(a) => SympPhase(p, q, a, n);
  }

  lemma SympHadamard(p: Pauli, q: Pauli, a: nat, n: nat)
    requires Fits(p, n) && Fits(q, n) && a < n
    ensures Symp(HadamardRow(p, a, n), HadamardRow(q, a, n), n) == Symp(p, q, n)
  {
    assert SympTerms(p, q, n) == SympTerms(HadamardRow(p, a, n), HadamardRow(q, a, n), n);
  }

  lemma SympPhase(p: Pauli, q: Pauli, a: nat, n: nat)
    requires Fits(p, n) && Fits(q, n) && a < n
    ensures Symp(PhaseRow(p, a, n), PhaseRow(q, a, n), n) == Symp(p, q, n)
  {
    assert SympTerms(p, q, n) == SympTerms(PhaseRow(p, a, n), PhaseRow(q, a, n), n);
  }

  lemma SympCnot(p: Pauli, q: Pauli, c: nat, t: nat, n: nat)
    requires Fits(p, n) && Fits(q, n) && c < n && t < n && c != t
    ensures Symp(CnotRow(p, c, t, n), CnotRow(q, c, t, n), n) == Symp(p, q, n)
  {
    var p', q' := CnotRow(p, c, t, n), CnotRow(q, c, t, n);
    var s, s' := SympTerms(p, q, n), SympTerms(p', q', n);
    forall j | 0 <= j < n && j != c && j != t ensures s[j] == s'[j] {
      assert p'.x[j] == p.x[j] && p'.z[j] == p.z[j] && q'.x[j] == q.x[j] && q'.z[j] == q.z[j];
    }
    XorTwoChanged(s, s', c, t);
  }

  lemma SympGateAdjoint(g: Gate, v: Pauli, p: Pauli, n: nat)
    requires Fits(v, n) && Fits(p, n) && Acts(g, n)
    ensures Symp(v, GateRow(g, p, n), n) == Symp(GateRow(g, v, n), p, n)
  {
    hide GateRow;
    var g2 := GateRow(g, GateRow(g, p, n), n);
    SympGate(g, v, GateRow(g, p, n), n);
    GateTwice(g, p, n);
    SympBits(GateRow(g, v, n), g2, p, n);
  }

  // ---------------------------------------------------------------- homomorphism

  /** One column of a gate update: the new bits, and 2 when the phase flips. */
  function Flip(b: bool): int { if b then 2 else 0 }

  lemma HadamardColumn(xa: bool, za: bool, xb: bool, zb: bool)
    ensures (CliffordTerm(za, xa, zb, xb) + Flip(xa && za) + Flip(xb && zb)
             - CliffordTerm(xa, za, xb, zb) - Flip((xa != xb) && (za != zb))) % 4 == 0
  {
  }

  lemma PhaseColumn(xa: bool, za: bool, xb: bool, zb: bool)
    ensures (CliffordTerm(xa, za != xa, xb, zb != xb) + Flip(xa && za) + Flip(xb && zb)
             - CliffordTerm(xa, za, xb, zb) - Flip((xa != xb) && (za != zb))) % 4 == 0
  {
  }

  predicate CnotFlips(xc: bool, zc: bool, xt: bool, zt: bool)
  {
    xc && zt && (xt != xc) == (zc != zt)
  }

  lemma CnotColumns(xac: bool, zac: bool, xat: bool, zat: bool, xbc: bool, zbc: bool, xbt: bool, zbt: bool)
    ensures (CliffordTerm(xac, zac != zat, xbc, zbc != zbt) + CliffordTerm(xat != xac, zat, xbt != xbc, zbt)
             + Flip(CnotFlips(xac, zac, xat, zat)) + Flip(CnotFlips(xbc, zbc, xbt, zbt))
             - CliffordTerm(xac, zac, xbc, zbc) - CliffordTerm(xat, zat, xbt, zbt)
             - Flip(CnotFlips(xac != xbc, zac != zbc, xat != xbt, zat != zbt))) % 4 == 0
  {
  }

  lemma PhasesAgree(s: int, s': int, ra: int, rb: int, fa: bool, fb: bool, f: bool)
    requires 0 <= ra < 4 && 0 <= rb < 4
    requires (s' + Flip(fa) + Flip(fb) - s - Flip(f)) % 4 == 0
    ensures var a', b' := if fa then (ra + 2) % 4 else ra, if fb then (rb + 2) % 4 else rb;
            var r := (s + ra + rb) % 4;
            (if f then (r + 2) % 4 else r) == (s' + a' + b') % 4
  {
    var a', b' := if fa then (ra + 2) % 4 else ra, if fb then (rb + 2) % 4 else rb;
    var r := (s + ra + rb) % 4;
    var l := if f then (r + 2) % 4 else r;
    var k, q := (s' + Flip(fa) + Flip(fb) - s - Flip(f)) / 4, (s + ra + rb) / 4;
    var i, j := if fa && ra >= 2 then 1 else 0, if fb && rb >= 2 then 1 else 0;
    var m := if f && r >= 2 then 1 else 0;
    assert a' == ra + Flip(fa) - 4 * i && b' == rb + Flip(fb) - 4 * j && l == r + Flip(f) - 4 * m;
    Remainder(s' + a' + b', q + m + k - i - j, l);
  }

  lemma Remainder(a: int, q: int, r: int)
    requires a == 4 * q + r && 0 <= r < 4
    ensures a % 4 == r
  {
  }

  /** p and q agree in every column but i and j. */
  predicate SameColumns(p: Pauli, q: Pauli, i: nat, j: nat, n: nat)
    requires Fits(p, n) && Fits(q, n)
  {
    forall k :: 0 <= k < n && k != i && k != j ==> p.x[k] == q.x[k] && p.z[k] == q.z[k]
  }

  lemma TermsTwoColumns(a: Pauli, b: Pauli, a': Pauli, b': Pauli, i: nat, j: nat, n: nat)
    requires Fits(a, n) && Fits(b, n) && Fits(a', n) && Fits(b', n) && i < n && j < n && i != j
    requires SameColumns(a, a', i, j, n) && SameColumns(b, b', i, j, n)
    ensures Sum(CliffordTerms(a', b', n)) - Sum(CliffordTerms(a, b, n))
      == CliffordTerm(a'.x[i], a'.z[i], b'.x[i], b'.z[i]) - CliffordTerm(a.x[i], a.z[i], b.x[i], b.z[i])
         + CliffordTerm(a'.x[j], a'.z[j], b'.x[j], b'.z[j]) - CliffordTerm(a.x[j], a.z[j], b.x[j], b.z[j])
  {
    hide CliffordTerm;
    var s, s' := CliffordTerms(a, b, n), CliffordTerms(a', b', n);
    SumUpdate(s, i, s'[i]);
    SumUpdate(s[i := s'[i]], j, s'[j]);
    assert s' == s[i := s'[i]][j := s'[j]];
  }

  lemma TermsOneColumn(a: Pauli, b: Pauli, a': Pauli, b': Pauli, i: nat, n: nat)
    requires Fits(a, n) && Fits(b, n) && Fits(a', n) && Fits(b', n) && i < n
    requires SameColumns(a, a', i, i, n) && SameColumns(b, b', i, i, n)
    ensures Sum(CliffordTerms(a', b', n)) - Sum(CliffordTerms(a, b, n))
      == CliffordTerm(a'.x[i], a'.z[i], b'.x[i], b'.z[i]) - CliffordTerm(a.x[i], a.z[i], b.x[i], b.z[i])
  {
    hide CliffordTerm;
    var s, s' := CliffordTerms(a, b, n), CliffordTerms(a', b', n);
    SumUpdate(s, i, s'[i]);
    assert s' == s[i := s'[i]];
  }

  lemma HadamardProductPhase(q: nat, b: Pauli, a: Pauli, n: nat)
    requires Fits(a, n) && Fits(b, n) && q < n
    ensures HadamardRow(Times(b, a, n), q, n).r == Times(HadamardRow(b, q, n), HadamardRow(a, q, n), n).r
  {
    hide CliffordTerms, Sum, Flip, CliffordTerm;
    var ba, a', b' := Times(b, a, n), HadamardRow(a, q, n), HadamardRow(b, q, n);
    TermsOneColumn(a, b, a', b', q, n);
    HadamardColumn(a.x[q], a.z[q], b.x[q], b.z[q]);
    PhasesAgree(Sum(CliffordTerms(a, b, n)), Sum(CliffordTerms(a', b', n)), a.r, b.r,
                a.x[q] && a.z[q], b.x[q] && b.z[q], (a.x[q] != b.x[q]) && (a.z[q] != b.z[q]));
  }

  lemma PhaseProductPhase(q: nat, b: Pauli, a: Pauli, n: nat)
    requires Fits(a, n) && Fits(b, n) && q < n
    ensures PhaseRow(Times(b, a, n), q, n).r == Times(PhaseRow(b, q, n), PhaseRow(a, q, n), n).r
  {
    hide CliffordTerms, Sum, Flip, CliffordTerm;
    var ba, a', b' := Times(b, a, n), PhaseRow(a, q, n), PhaseRow(b, q, n);
    TermsOneColumn(a, b, a', b', q, n);
    PhaseColumn(a.x[q], a.z[q], b.x[q], b.z[q]);
    PhasesAgree(Sum(CliffordTerms(a, b, n)), Sum(CliffordTerms(a', b', n)), a.r, b.r,
                a.x[q] && a.z[q], b.x[q] && b.z[q], (a.x[q] != b.x[q]) && (a.z[q] != b.z[q]));
  }

  lemma CnotRowPhase(p: Pauli, c: nat, t: nat, n: nat)
    requires Fits(p, n) && c < n && t < n && c != t
    ensures CnotRow(p, c, t, n) ==
      Pauli(p.x[t := p.x[t] != p.x[c]], p.z[c := p.z[c] != p.z[t]],
            if CnotFlips(p.x[c], p.z[c], p.x[t], p.z[t]) then (p.r + 2) % 4 else p.r)
  {
  }

  lemma CnotTerms(c: nat, t: nat, b: Pauli, a: Pauli, n: nat)
    requires Fits(a, n) && Fits(b, n) && c < n && t < n && c != t
    ensures var ba := Times(b, a, n);
            (Sum(CliffordTerms(CnotRow(a, c, t, n), CnotRow(b, c, t, n), n)) - Sum(CliffordTerms(a, b, n))
             + Flip(CnotFlips(a.x[c], a.z[c], a.x[t], a.z[t])) + Flip(CnotFlips(b.x[c], b.z[c], b.x[t], b.z[t]))
             - Flip(CnotFlips(ba.x[c], ba.z[c], ba.x[t], ba.z[t]))) % 4 == 0
  {
    hide CliffordTerms, Sum, Flip, CliffordTerm, CnotFlips, CnotRow;
    CnotRowPhase(a, c, t, n);
    CnotRowPhase(b, c, t, n);
    TermsTwoColumns(a, b, CnotRow(a, c, t, n), CnotRow(b, c, t, n), c, t, n);
    CnotColumns(a.x[c], a.z[c], a.x[t], a.z[t], b.x[c], b.z[c], b.x[t], b.z[t]);
  }

  lemma CnotProductPhase(c: nat, t: nat, b: Pauli, a: Pauli, n: nat)
    requires Fits(a, n) && Fits(b, n) && c < n && t < n && c != t
    ensures CnotRow(Times(b, a, n), c, t, n).r == Times(CnotRow(b, c, t, n), CnotRow(a, c, t, n), n).r
  {
    hide CliffordTerms, Sum, Flip, CliffordTerm, CnotFlips, CnotRow;
    var ba, a', b' := Times(b, a, n), CnotRow(a, c, t, n), CnotRow(b, c, t, n);
    CnotTerms(c, t, b, a, n);
    CnotRowPhase(a, c, t, n);
    CnotRowPhase(b, c, t, n);
    CnotRowPhase(ba, c, t, n);
    PhasesAgree(Sum(CliffordTerms(a, b, n)), Sum(CliffordTerms(a', b', n)), a.r, b.r,
                CnotFlips(a.x[c], a.z[c], a.x[t], a.z[t]), CnotFlips(b.x[c], b.z[c], b.x[t], b.z[t]),
                CnotFlips(ba.x[c], ba.z[c], ba.x[t], ba.z[t]));
  }

  lemma CnotProductBits(c: nat, t: nat, b: Pauli, a: Pauli, n: nat)
    requires Fits(a, n) && Fits(b, n) && c < n && t < n && c != t
    ensures SameBits(CnotRow(Times(b, a, n), c, t, n), Times(CnotRow(b, c, t, n), CnotRow(a, c, t, n), n))
  {
    hide Sum, CliffordTerms;
  }

  lemma HadamardProductBits(q: nat, b: Pauli, a: Pauli, n: nat)
    requires Fits(a, n) && Fits(b, n) && q < n
    ensures SameBits(HadamardRow(Times(b, a, n), q, n), Times(HadamardRow(b, q, n), HadamardRow(a, q, n), n))
  {
    hide Sum, CliffordTerms;
  }

  lemma PhaseProductBits(q: nat, b: Pauli, a: Pauli, n: nat)
    requires Fits(a, n) && Fits(b, n) && q < n
    ensures SameBits(PhaseRow(Times(b, a, n), q, n), Times(PhaseRow(b, q, n), PhaseRow(a, q, n), n))
  {
    hide Sum, CliffordTerms;
  }

  lemma GateProductBits(g: Gate, b: Pauli, a: Pauli, n: nat)
    requires Fits(a, n) && Fits(b, n) && Acts(g, n)
    ensures SameBits(GateRow(g, Times(b, a, n), n), Times(GateRow(g, b, n), GateRow(g, a, n), n))
  {
    hide CnotRow, HadamardRow, PhaseRow, Times;
    match g
    case Cnot(c, t) => CnotProductBits(c, t, b, a, n);
    case Hadamard(q) => HadamardProductBits(q, b, a, n);
    case Phase(q) => PhaseProductBits(q, b, a, n);
  }

  lemma GateHomomorphism(g: Gate, b: Pauli, a: Pauli, n: nat)
    requires Fits(a, n) && Fits(b, n) && Acts(g, n)
    ensures GateRow(g, Times(b, a, n), n) == Times(GateRow(g, b, n), GateRow(g, a, n), n)
  {
    hide Times, CnotRow, HadamardRow, PhaseRow;
    GateProductBits(g, b, a, n);
    match g
    case Cnot(c, t) => CnotProductPhase(c, t, b, a, n);
    case Hadamard(q) => HadamardProductPhase(q, b, a, n);
    case Phase(q) => PhaseProductPhase(q, b, a, n);
  }
}
