/** Phased Pauli operators: the rows of the tableau, and their product as clifford and
    rowmult compute it (state/chp_state.hpp:251-312). */
module Paulis {
  import opened Sums

  /** i^r times the tensor product over the columns j of
      I (neither bit), X (x only), Z (z only) or Y (both). */
  datatype Pauli = Pauli(x: seq<bool>, z: seq<bool>, r: int)

  predicate Fits(p: Pauli, n: nat)
  {
    |p.x| == n && |p.z| == n && 0 <= p.r < 4
  }

  function Zeros(n: nat): (s: seq<bool>)
    ensures |s| == n && forall j :: 0 <= j < n ==> !s[j]
  {
    seq(n, _ => false)
  }

  function UnitX(n: nat, q: nat, r: int): (p: Pauli)
    requires q < n && 0 <= r < 4
    ensures Fits(p, n)
  {
    Pauli(Zeros(n)[q := true], Zeros(n), r)
  }

  function UnitZ(n: nat, q: nat, r: int): (p: Pauli)
    requires q < n && 0 <= r < 4
    ensures Fits(p, n)
  {
    Pauli(Zeros(n), Zeros(n)[q := true], r)
  }

  /** The phase of the sign (-1)^o. */
  function OutcomePhase(o: bool): int { if o then 2 else 0 }

  function Identity(n: nat): (p: Pauli)
    ensures Fits(p, n)
  {
    Pauli(Zeros(n), Zeros(n), 0)
  }

  function XorBits(a: seq<bool>, b: seq<bool>): (c: seq<bool>)
    requires |a| == |b|
    ensures |c| == |a|
    ensures forall j :: 0 <= j < |a| ==> c[j] == (a[j] != b[j])
  {
    seq(|a|, j requires 0 <= j < |a| => a[j] != b[j])
  }

  // ---------------------------------------------------------------- symplectic product

  function SympTerms(p: Pauli, q: Pauli, n: nat): (s: seq<bool>)
    requires Fits(p, n) && Fits(q, n)
    ensures |s| == n
    ensures forall j :: 0 <= j < n ==> s[j] == ((p.x[j] && q.z[j]) != (p.z[j] && q.x[j]))
  {
    seq(n, j requires 0 <= j < n => (p.x[j] && q.z[j]) != (p.z[j] && q.x[j]))
  }

  /** True when the two operators anticommute. */
  predicate Symp(p: Pauli, q: Pauli, n: nat)
    requires Fits(p, n) && Fits(q, n)
  {
    Xor(SympTerms(p, q, n))
  }

  lemma SympSymmetric(p: Pauli, q: Pauli, n: nat)
    requires Fits(p, n) && Fits(q, n)
    ensures Symp(p, q, n) == Symp(q, p, n)
  {
    assert SympTerms(p, q, n) == SympTerms(q, p, n);
  }

  lemma SympUnitZ(n: nat, b: nat, r: int, p: Pauli)
    requires b < n && 0 <= r < 4 && Fits(p, n)
    ensures Symp(UnitZ(n, b, r), p, n) == p.x[b]
  {
    XorSingle(SympTerms(UnitZ(n, b, r), p, n), b);
  }

  lemma SympUnitX(n: nat, b: nat, r: int, p: Pauli)
    requires b < n && 0 <= r < 4 && Fits(p, n)
    ensures Symp(UnitX(n, b, r), p, n) == p.z[b]
  {
    XorSingle(SympTerms(UnitX(n, b, r), p, n), b);
  }

  // ---------------------------------------------------------------- product

  /** The power of i contributed by one column when the operator with bits
      (xb, zb) multiplies the one with bits (xa, za) from the left. */
  function CliffordTerm(xa: bool, za: bool, xb: bool, zb: bool): int
  {
    if xb && !zb then (if xa && za then 1 else if !xa && za then -1 else 0)
    else if xb && zb then (if !xa && za then 1 else if xa && !za then -1 else 0)
    else if !xb && zb then (if xa && !za then 1 else if xa && za then -1 else 0)
    else 0
  }

  function CliffordTerms(a: Pauli, b: Pauli, n: nat): (s: seq<int>)
    requires Fits(a, n) && Fits(b, n)
    ensures |s| == n
    ensures forall j :: 0 <= j < n ==> s[j] == CliffordTerm(a.x[j], a.z[j], b.x[j], b.z[j])
  {
    seq(n, j requires 0 <= j < n => CliffordTerm(a.x[j], a.z[j], b.x[j], b.z[j]))
  }

  /** b times a: what rowmult leaves in row a. */
  function Times(b: Pauli, a: Pauli, n: nat): (c: Pauli)
    requires Fits(a, n) && Fits(b, n)
    ensures Fits(c, n)
    ensures forall j :: 0 <= j < n ==> c.x[j] == (a.x[j] != b.x[j]) && c.z[j] == (a.z[j] != b.z[j])
  {
    Pauli(XorBits(a.x, b.x), XorBits(a.z, b.z), (Sum(CliffordTerms(a, b, n)) + a.r + b.r) % 4)
  }

  lemma SympTimes(v: Pauli, b: Pauli, a: Pauli, n: nat)
    requires Fits(v, n) && Fits(a, n) && Fits(b, n)
    ensures Symp(v, Times(b, a, n), n) == (Symp(v, b, n) != Symp(v, a, n))
  {
    hide Times;
    XorPointwise(SympTerms(v, b, n), SympTerms(v, a, n), SympTerms(v, Times(b, a, n), n));
  }

  lemma CliffordTermCocycle(xa: bool, za: bool, xb: bool, zb: bool, xc: bool, zc: bool)
    ensures (CliffordTerm(xa, za, xb, zb) + CliffordTerm(xa != xb, za != zb, xc, zc)
             - CliffordTerm(xb, zb, xc, zc) - CliffordTerm(xa, za, xb != xc, zb != zc)) % 4 == 0
  {
  }

  lemma TimesAssociative(c: Pauli, b: Pauli, a: Pauli, n: nat)
    requires Fits(a, n) && Fits(b, n) && Fits(c, n)
    ensures Times(c, Times(b, a, n), n) == Times(Times(c, b, n), a, n)
  {
    var ba, cb := Times(b, a, n), Times(c, b, n);
    var s, t, u, w := CliffordTerms(a, b, n), CliffordTerms(ba, c, n), CliffordTerms(b, c, n), CliffordTerms(a, cb, n);
    assert (Sum(s) + Sum(t) - Sum(u) - Sum(w)) % 4 == 0 by {
      forall j | 0 <= j < n ensures (s[j] + t[j] - u[j] - w[j]) % 4 == 0 {
        CliffordTermCocycle(a.x[j], a.z[j], b.x[j], b.z[j], c.x[j], c.z[j]);
      }
      SumCongruent(s, t, u, w);
    }
    var l, r := Times(c, ba, n), Times(cb, a, n);
    assert l.x == r.x && l.z == r.z;
  }

  /** The phase counter is odd exactly for anticommuting operators. */
  lemma CliffordParity(b: Pauli, a: Pauli, n: nat)
    requires Fits(a, n) && Fits(b, n)
    ensures (Sum(CliffordTerms(a, b, n)) % 2 == 1) == Symp(a, b, n)
    ensures ((Times(b, a, n).r + a.r + b.r) % 2 == 1) == Symp(a, b, n)
  {
    SumParity(CliffordTerms(a, b, n), SympTerms(a, b, n));
  }

  lemma OppositePhase(s: int, t: int, r: int)
    requires s == -t
    ensures (s + r) % 4 == ((t + r) % 4 + if s % 2 == 1 then 2 else 0) % 4
  {
  }

  /** Operators that commute symplectically commute with their phases too, and
      those that anticommute differ by the factor -1. */
  lemma TimesCommutes(b: Pauli, a: Pauli, n: nat)
    requires Fits(a, n) && Fits(b, n)
    ensures Times(a, b, n) == Times(b, a, n).(r := (Times(b, a, n).r + if Symp(a, b, n) then 2 else 0) % 4)
  {
    hide Symp;
    SumAntisymmetric(CliffordTerms(a, b, n), CliffordTerms(b, a, n));
    CliffordParity(b, a, n);
    OppositePhase(Sum(CliffordTerms(a, b, n)), Sum(CliffordTerms(b, a, n)), a.r + b.r);
    assert Times(a, b, n).x == Times(b, a, n).x && Times(a, b, n).z == Times(b, a, n).z;
  }

  /** A row with a real phase is its own inverse. */
  lemma TimesSelf(a: Pauli, n: nat)
    requires Fits(a, n) && a.r % 2 == 0
    ensures Times(a, a, n) == Identity(n)
  {
    SumAllZero(CliffordTerms(a, a, n));
    assert Times(a, a, n).x == Zeros(n) && Times(a, a, n).z == Zeros(n);
  }

  lemma TimesIdentity(a: Pauli, n: nat)
    requires Fits(a, n)
    ensures Times(Identity(n), a, n) == a && Times(a, Identity(n), n) == a
  {
    var e := Identity(n);
    SumAllZero(CliffordTerms(a, e, n));
    SumAllZero(CliffordTerms(e, a, n));
    assert Times(e, a, n).x == a.x == Times(a, e, n).x;
    assert Times(e, a, n).z == a.z == Times(a, e, n).z;
  }
}
