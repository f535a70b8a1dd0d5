/** What a tableau row means: Pauli operators, the gates and the projections of a
    measurement acting on unnormalised amplitude vectors over the Gaussian integers. */
module Amplitudes {
  import opened Sums
  import opened Paulis
  import opened Gates

  datatype Gauss = Gauss(re: int, im: int)

  const ZERO := Gauss(0, 0)
  const ONE := Gauss(1, 0)

  function Plus(a: Gauss, b: Gauss): Gauss
  {
    Gauss(a.re + b.re, a.im + b.im)
  }

  /** i^k times a. */
  function Rot(k: int, a: Gauss): Gauss
  {
    var m := k % 4;
    if m == 0 then a else if m == 1 then Gauss(-a.im, a.re)
    else if m == 2 then Gauss(-a.re, -a.im) else Gauss(a.im, -a.re)
  }

  lemma RotRot(k: int, l: int, a: Gauss)
    ensures Rot(k, Rot(l, a)) == Rot(k + l, a)
  {
  }

  lemma RotPlus(k: int, a: Gauss, b: Gauss)
    ensures Rot(k, Plus(a, b)) == Plus(Rot(k, a), Rot(k, b))
  {
  }

  lemma RotSame(k: int, l: int, a: Gauss)
    requires (k - l) % 4 == 0
    ensures Rot(k, a) == Rot(l, a)
  {
  }

  type Bits = seq<bool>

  /** An amplitude for every basis state; only strings of the right length matter. */
  type Amp = Bits -> Gauss

  ghost predicate SameState(f: Amp, g: Amp, n: nat)
  {
    forall s: Bits :: |s| == n ==> f(s) == g(s)
  }

  ghost predicate Nonzero(f: Amp, n: nat)
  {
    exists s: Bits :: |s| == n && f(s) != ZERO
  }

  // ---------------------------------------------------------------- operators

  function ExpoTerm(x: bool, z: bool, b: bool): int
  {
    if z then (if b then 2 else 0) + (if x then 1 else 0) else 0
  }

  function ExpoTerms(p: Pauli, s: Bits, n: nat): (e: seq<int>)
    requires Fits(p, n) && |s| == n
    ensures |e| == n && forall j :: 0 <= j < n ==> e[j] == ExpoTerm(p.x[j], p.z[j], s[j])
  {
    seq(n, j requires 0 <= j < n => ExpoTerm(p.x[j], p.z[j], s[j]))
  }

  /** p maps the basis state s to i^Expo(p, s) times the basis state s + p.x. */
  function Expo(p: Pauli, s: Bits, n: nat): int
    requires Fits(p, n) && |s| == n
  {
    p.r + Sum(ExpoTerms(p, s, n))
  }

  function Apply(p: Pauli, f: Amp, n: nat): Amp
    requires Fits(p, n)
  {
    (t: Bits) => if |t| == n then Rot(Expo(p, XorBits(t, p.x), n), f(XorBits(t, p.x))) else ZERO
  }

  function ApplyGate(g: Gate, f: Amp, n: nat): Amp
    requires Acts(g, n)
  {
    (s: Bits) =>
      if |s| != n then ZERO else
      match g
      case Cnot(c, t) => f(s[t := s[t] != s[c]])
      case Hadamard(q) => Plus(f(s[q := false]), Rot(if s[q] then 2 else 0, f(s[q := true])))
      case Phase(q) => Rot(if s[q] then 1 else 0, f(s))
  }

  function Project(f: Amp, b: nat, o: bool, n: nat): Amp
    requires b < n
  {
    (s: Bits) => if |s| == n && s[b] == o then f(s) else ZERO
  }

  ghost predicate Stabilises(p: Pauli, f: Amp, n: nat)
    requires Fits(p, n)
  {
    SameState(Apply(p, f, n), f, n)
  }

  // ---------------------------------------------------------------- products

  lemma ExpoTermProduct(xa: bool, za: bool, xb: bool, zb: bool, s: bool)
    ensures (ExpoTerm(xb, zb, s != xa) + ExpoTerm(xa, za, s)
             - CliffordTerm(xa, za, xb, zb) - ExpoTerm(xa != xb, za != zb, s)) % 4 == 0
  {
  }

  lemma ExpoProduct(b: Pauli, a: Pauli, s: Bits, n: nat)
    requires Fits(a, n) && Fits(b, n) && |s| == n
    ensures (Expo(Times(b, a, n), s, n) - Expo(b, XorBits(s, a.x), n) - Expo(a, s, n)) % 4 == 0
  {
    var ba := Times(b, a, n);
    var e, f, g, h := ExpoTerms(b, XorBits(s, a.x), n), ExpoTerms(a, s, n), CliffordTerms(a, b, n), ExpoTerms(ba, s, n);
    assert (Sum(e) + Sum(f) - Sum(g) - Sum(h)) % 4 == 0 by {
      hide Times;
      forall j | 0 <= j < n ensures (e[j] + f[j] - g[j] - h[j]) % 4 == 0 {
        ExpoTermProduct(a.x[j], a.z[j], b.x[j], b.z[j], s[j]);
      }
      SumCongruent(e, f, g, h);
    }
  }

  /** The row that rowmult computes acts as its two factors, one after the other. */
  lemma ProductActs(b: Pauli, a: Pauli, f: Amp, n: nat)
    requires Fits(a, n) && Fits(b, n)
    ensures SameState(Apply(Times(b, a, n), f, n), Apply(b, Apply(a, f, n), n), n)
  {
    hide Times, Expo, Rot;
    var ba := Times(b, a, n);
    forall t: Bits | |t| == n ensures Apply(ba, f, n)(t) == Apply(b, Apply(a, f, n), n)(t) {
      var u := XorBits(t, b.x);
      var s := XorBits(u, a.x);
      assert s == XorBits(t, ba.x);
      assert u == XorBits(s, a.x);
      ExpoProduct(b, a, s, n);
      RotRot(Expo(b, u, n), Expo(a, s, n), f(s));
      RotSame(Expo(ba, s, n), Expo(b, u, n) + Expo(a, s, n), f(s));
    }
  }

  lemma StabilisesProduct(b: Pauli, a: Pauli, f: Amp, n: nat)
    requires Fits(a, n) && Fits(b, n) && Stabilises(a, f, n) && Stabilises(b, f, n)
    ensures Stabilises(Times(b, a, n), f, n)
  {
    hide Times, Expo, Rot;
    ProductActs(b, a, f, n);
    ApplySame(b, Apply(a, f, n), f, n);
  }

  lemma ApplySame(p: Pauli, f: Amp, g: Amp, n: nat)
    requires Fits(p, n) && SameState(f, g, n)
    ensures SameState(Apply(p, f, n), Apply(p, g, n), n)
  {
    hide Expo, Rot;
    forall t: Bits | |t| == n ensures Apply(p, f, n)(t) == Apply(p, g, n)(t) {
      assert f(XorBits(t, p.x)) == g(XorBits(t, p.x));
    }
  }
}
