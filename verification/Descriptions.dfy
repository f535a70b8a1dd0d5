/** A tableau with the invariant describes exactly one state, up to a factor. */
module Descriptions {
  import opened Paulis
  import opened Amplitudes
  import opened Projections
  import opened Tableaus
  import opened Measurement
  import opened SignedGroup

  // ---------------------------------------------------------------- at least one

  function Added(f: Amp, g: Amp): Amp
  {
    (t: Bits) => Plus(f(t), g(t))
  }

  lemma ApplyAdded(p: Pauli, f: Amp, g: Amp, n: nat)
    requires Fits(p, n)
    ensures SameState(Apply(p, Added(f, g), n), Added(Apply(p, f, n), Apply(p, g, n)), n)
  {
    hide Expo, Rot, Plus;
    forall t: Bits | |t| == n
      ensures Apply(p, Added(f, g), n)(t) == Added(Apply(p, f, n), Apply(p, g, n))(t)
    {
      var u := XorBits(t, p.x);
      RotPlus(Expo(p, u, n), f(u), g(u));
    }
  }

  /** Commuting operators may be applied in either order; anticommuting ones differ by -1. */
  lemma ApplySwapped(a: Pauli, b: Pauli, f: Amp, n: nat, t: Bits)
    requires Fits(a, n) && Fits(b, n) && |t| == n
    ensures Apply(a, Apply(b, f, n), n)(t) == Rot(if Symp(a, b, n) then 2 else 0, Apply(b, Apply(a, f, n), n)(t))
  {
    hide Times, Expo, Rot, Symp;
    ProductActs(a, b, f, n);
    ProductActs(b, a, f, n);
    TimesCommutes(b, a, n);
    var k := if Symp(a, b, n) then 2 else 0;
    PhaseActs(Times(b, a, n), k, f, n, t);
  }

  /** A phase in front of an operator is a phase in front of its result. */
  lemma PhaseActs(p: Pauli, k: int, f: Amp, n: nat, t: Bits)
    requires Fits(p, n) && |t| == n && 0 <= k
    ensures Apply(p.(r := (p.r + k) % 4), f, n)(t) == Rot(k, Apply(p, f, n)(t))
  {
    var q := p.(r := (p.r + k) % 4);
    var u := XorBits(t, p.x);
    assert ExpoTerms(q, u, n) == ExpoTerms(p, u, n);
    RotRot(k, Expo(p, u, n), f(u));
    RotSame(Expo(q, u, n), k + Expo(p, u, n), f(u));
  }

  /** A real operator undoes itself. */
  lemma AppliedTwice(p: Pauli, f: Amp, n: nat)
    requires Fits(p, n) && p.r % 2 == 0
    ensures SameState(Apply(p, Apply(p, f, n), n), f, n)
  {
    hide Times, Expo, Rot;
    ProductActs(p, p, f, n);
    TimesSelf(p, n);
    IdentityStabilises(n, f);
  }

  lemma ApplyNonzero(p: Pauli, f: Amp, n: nat)
    requires Fits(p, n) && Nonzero(f, n)
    ensures Nonzero(Apply(p, f, n), n)
  {
    hide Expo, Rot;
    var u: Bits :| |u| == n && f(u) != ZERO;
    var t := XorBits(u, p.x);
    assert XorBits(t, p.x) == u;
    RotNonzero(Expo(p, u, n), f(u));
    assert Apply(p, f, n)(t) != ZERO;
  }

  /** What commutes with an operator fixes the result of applying it. */
  lemma AppliedStabilised(p: Pauli, d: Pauli, f: Amp, n: nat)
    requires Fits(p, n) && Fits(d, n) && !Symp(p, d, n) && Stabilises(p, f, n)
    ensures Stabilises(p, Apply(d, f, n), n)
  {
    hide Expo, Symp;
    ApplySame(d, Apply(p, f, n), f, n);
    forall t: Bits | |t| == n ensures Apply(p, Apply(d, f, n), n)(t) == Apply(d, f, n)(t) {
      ApplySwapped(p, d, f, n, t);
    }
  }

  lemma AddedStabilised(p: Pauli, f: Amp, g: Amp, n: nat)
    requires Fits(p, n) && Stabilises(p, f, n) && Stabilises(p, g, n)
    ensures Stabilises(p, Added(f, g), n)
  {
    hide Expo, Rot, Plus, Apply;
    ApplyAdded(p, f, g, n);
  }

  /** f + s f is fixed by s. */
  lemma SymmetrisedStabilised(s: Pauli, f: Amp, n: nat)
    requires Fits(s, n) && s.r % 2 == 0
    ensures Stabilises(s, Added(f, Apply(s, f, n)), n)
  {
    hide Expo, Rot, Apply;
    ApplyAdded(s, f, Apply(s, f, n), n);
    AppliedTwice(s, f, n);
  }

  lemma Opposite(a: Gauss, b: Gauss)
    requires Plus(a, b) == ZERO
    ensures b == Rot(2, a)
  {
  }

  /** If s f = -f, then s fixes d f for every d that anticommutes with s. */
  lemma SignTurned(s: Pauli, d: Pauli, f: Amp, n: nat)
    requires Fits(s, n) && Fits(d, n) && Symp(s, d, n) && !Nonzero(Added(f, Apply(s, f, n)), n)
    ensures Stabilises(s, Apply(d, f, n), n)
  {
    hide Expo, Symp, Rot, Plus;
    forall t: Bits | |t| == n ensures Apply(s, Apply(d, f, n), n)(t) == Apply(d, f, n)(t) {
      ApplySwapped(s, d, f, n, t);
      var u := XorBits(t, d.x);
      assert Added(f, Apply(s, f, n))(u) == ZERO;
      Opposite(f(u), Apply(s, f, n)(u));
      RotRot(Expo(d, u, n), 2, f(u));
      RotRot(2, Expo(d, u, n) + 2, f(u));
      RotSame(2 + Expo(d, u, n) + 2, Expo(d, u, n), f(u));
    }
  }

  /** The first k stabilizers fix f. */
  ghost predicate FixedBy(n: nat, rows: Rows, k: nat, f: Amp)
    requires Shape(n, rows) && k <= n
  {
    Nonzero(f, n) && forall i :: n <= i < n + k ==> Stabilises(rows[i], f, n)
  }

  /** One stabilizer more: f + s f, or if that is zero, d f. */
  lemma FixOneMore(n: nat, rows: Rows, k: nat, f: Amp) returns (g: Amp)
    requires Invariant(n, rows) && k < n && FixedBy(n, rows, k, f)
    ensures FixedBy(n, rows, k + 1, g)
  {
    hide Symp, Complete, Canonical, Stabilises, Apply, Plus, Added;
    var s, d := rows[n + k], rows[k];
    CanonicalAt(n, rows, n + k, k);
    g := Added(f, Apply(s, f, n));
    if Nonzero(g, n) {
      SymmetrisedStabilised(s, f, n);
      forall i | n <= i < n + k ensures Stabilises(rows[i], g, n) {
        CanonicalAt(n, rows, i, n + k);
        AppliedStabilised(rows[i], s, f, n);
        AddedStabilised(rows[i], f, Apply(s, f, n), n);
      }
    } else {
      SignTurned(s, d, f, n);
      g := Apply(d, f, n);
      ApplyNonzero(d, f, n);
      forall i | n <= i < n + k ensures Stabilises(rows[i], g, n) {
        CanonicalAt(n, rows, i, k);
        AppliedStabilised(rows[i], d, f, n);
      }
    }
  }

  /** Every tableau with the invariant describes a state. */
  lemma DescribesSome(n: nat, rows: Rows) returns (f: Amp)
    requires Invariant(n, rows)
    ensures Describes(n, rows, f)
  {
    hide Complete, Canonical, Stabilises, Shape;
    f := (t: Bits) => ONE;
    assert f(Zeros(n)) != ZERO;
    var k := 0;
    while k < n
      invariant k <= n && FixedBy(n, rows, k, f)
    {
      f := FixOneMore(n, rows, k, f);
      k := k + 1;
    }
  }

  // ---------------------------------------------------------------- at most one

  function Mul(a: Gauss, b: Gauss): Gauss
  {
    Gauss(a.re * b.re - a.im * b.im, a.re * b.im + a.im * b.re)
  }

  lemma MulRot(k: int, l: int, a: Gauss, b: Gauss)
    ensures Mul(Rot(k, a), Rot(l, b)) == Rot(k + l, Mul(a, b))
  {
    MulRotLeft(k, a, Rot(l, b));
    MulRotRight(l, a, b);
    RotRot(k, l, Mul(a, b));
  }

  lemma MulRotLeft(k: int, a: Gauss, b: Gauss)
    ensures Mul(Rot(k, a), b) == Rot(k, Mul(a, b))
  {
  }

  lemma MulRotRight(k: int, a: Gauss, b: Gauss)
    ensures Mul(a, Rot(k, b)) == Rot(k, Mul(a, b))
  {
  }

  /** The two vectors differ by a factor. */
  ghost predicate Proportional(f: Amp, h: Amp, n: nat)
  {
    forall s: Bits, t: Bits :: |s| == n && |t| == n ==> Mul(f(s), h(t)) == Mul(f(t), h(s))
  }

  /** Both vectors are settled on the values u of the first k qubits. */
  ghost predicate BothSettled(n: nat, k: nat, u: Bits, f: Amp, h: Amp)
    requires k <= n == |u|
  {
    forall b :: 0 <= b < k ==> Settled(f, b, u[b], n) && Settled(h, b, u[b], n)
  }

  lemma SettledProportional(n: nat, u: Bits, f: Amp, h: Amp)
    requires |u| == n && BothSettled(n, n, u, f, h)
    ensures Proportional(f, h, n)
  {
    hide Mul;
    forall s: Bits | |s| == n && s != u ensures f(s) == ZERO && h(s) == ZERO {
      var b :| 0 <= b < n && s[b] != u[b];
      assert Settled(f, b, u[b], n) && Settled(h, b, u[b], n);
    }
    forall s: Bits, t: Bits | |s| == n && |t| == n ensures Mul(f(s), h(t)) == Mul(f(t), h(s)) {
      MulZero(f(s));
      MulZero(f(t));
      MulZero(h(s));
      MulZero(h(t));
    }
  }

  lemma MulZero(a: Gauss)
    ensures Mul(a, ZERO) == ZERO == Mul(ZERO, a)
  {
  }

  /** Where the amplitude at s comes from in the part of f with t[b] == o. */
  function Source(p: Pauli, b: nat, o: bool, s: Bits): Bits
    requires b < |s| && Fits(p, |s|)
  {
    if s[b] == o then s else XorBits(s, p.x)
  }

  function SourcePhase(p: Pauli, b: nat, o: bool, s: Bits): int
    requires b < |s| && Fits(p, |s|)
  {
    if s[b] == o then 0 else Expo(p, XorBits(s, p.x), |s|)
  }

  /** A stabilizer that flips the qubit recovers the state from either half of it. */
  lemma HalfDetermines(p: Pauli, f: Amp, b: nat, o: bool, n: nat, s: Bits)
    requires Fits(p, n) && b < n && p.x[b] && Stabilises(p, f, n) && |s| == n
    ensures |Source(p, b, o, s)| == n
    ensures f(s) == Rot(SourcePhase(p, b, o, s), Project(f, b, o, n)(Source(p, b, o, s)))
  {
    hide Expo;
    assert Apply(p, f, n)(s) == f(s);
  }

  lemma HalvesProportional(p: Pauli, f: Amp, h: Amp, b: nat, o: bool, n: nat)
    requires Fits(p, n) && b < n && p.x[b] && Stabilises(p, f, n) && Stabilises(p, h, n)
    requires Proportional(Project(f, b, o, n), Project(h, b, o, n), n)
    ensures Proportional(f, h, n)
  {
    hide Mul, Rot, Project, Source, SourcePhase, Stabilises;
    var f', h' := Project(f, b, o, n), Project(h, b, o, n);
    forall s: Bits, t: Bits | |s| == n && |t| == n ensures Mul(f(s), h(t)) == Mul(f(t), h(s)) {
      HalfDetermines(p, f, b, o, n, s);
      HalfDetermines(p, h, b, o, n, t);
      HalfDetermines(p, f, b, o, n, t);
      HalfDetermines(p, h, b, o, n, s);
      var s', t', k, l := Source(p, b, o, s), Source(p, b, o, t), SourcePhase(p, b, o, s), SourcePhase(p, b, o, t);
      MulRot(k, l, f'(s'), h'(t'));
      MulRot(l, k, f'(t'), h'(s'));
    }
  }

  lemma SettledKept(n: nat, k: nat, u: Bits, f: Amp, h: Amp, o: bool)
    requires k < n == |u| && BothSettled(n, k, u, f, h)
    ensures BothSettled(n, k + 1, u[k := o], Project(f, k, o, n), Project(h, k, o, n))
  {
    hide Project;
    var f', h', u' := Project(f, k, o, n), Project(h, k, o, n), u[k := o];
    ProjectSettles(f, k, o, n);
    ProjectSettles(h, k, o, n);
    forall b | 0 <= b < k ensures Settled(f', b, u'[b], n) && Settled(h', b, u'[b], n) {
      assert Settled(f, b, u[b], n) && Settled(h, b, u[b], n);
      ProjectKeepsSettled(f, k, o, b, u[b], n);
      ProjectKeepsSettled(h, k, o, b, u[b], n);
    }
  }

  lemma ProjectKeepsSettled(f: Amp, k: nat, o: bool, b: nat, v: bool, n: nat)
    requires k < n && b < n && Settled(f, b, v, n)
    ensures Settled(Project(f, k, o, n), b, v, n)
  {
  }

  lemma ProjectSame(f: Amp, b: nat, o: bool, n: nat)
    requires b < n && Settled(f, b, o, n)
    ensures SameState(Project(f, b, o, n), f, n)
  {
  }

  lemma ProportionalSame(f: Amp, f': Amp, h: Amp, h': Amp, n: nat)
    requires SameState(f', f, n) && SameState(h', h, n) && Proportional(f', h', n)
    ensures Proportional(f, h, n)
  {
    hide Mul;
    forall s: Bits, t: Bits | |s| == n && |t| == n ensures Mul(f(s), h(t)) == Mul(f(t), h(s)) {
      assert Mul(f'(s), h'(t)) == Mul(f'(t), h'(s));
    }
  }

  /** Measuring qubit after qubit brings any two states of a tableau to the same basis
      string, and every measurement can be undone. */
  lemma {:induction false} ProportionalFrom(n: nat, rows: Rows, k: nat, u: Bits, f: Amp, h: Amp)
    requires Invariant(n, rows) && Describes(n, rows, f) && Describes(n, rows, h)
    requires k <= n == |u| && BothSettled(n, k, u, f, h)
    ensures Proportional(f, h, n)
    decreases n - k
  {
    hide Complete, Canonical, Stabilises, Project, Settled, Possible, Proportional, RandomRows, Accumulated, Weight;
    if k == n {
      SettledProportional(n, u, f, h);
    } else {
      var m := Measure(n, rows, k, false);
      MeasureSound(n, rows, k, false, f);
      MeasureSound(n, rows, k, false, h);
      SettledKept(n, k, u, f, h, m.outcome);
      var f', h' := Project(f, k, m.outcome, n), Project(h, k, m.outcome, n);
      ProportionalFrom(n, m.rows, k + 1, u[k := m.outcome], f', h');
      if m.drew {
        var p := FindX(rows, k, n, n, 2 * n);
        HalvesProportional(rows[p], f, h, k, m.outcome, n);
      } else {
        ImpossibleSettles(f, k, m.outcome, n);
        ImpossibleSettles(h, k, m.outcome, n);
        ProjectSame(f, k, m.outcome, n);
        ProjectSame(h, k, m.outcome, n);
        ProportionalSame(f, f', h, h', n);
      }
    }
  }

  /** A nonzero factor cancels. */
  lemma MulCancels(a: Gauss, x: Gauss, y: Gauss)
    requires a != ZERO && Mul(a, x) == Mul(a, y)
    ensures x == y
  {
    var p, q := x.re - y.re, x.im - y.im;
    assert a.re * p == a.im * q && a.re * q == -(a.im * p);
    NormTimes(a.re, a.im, p, q);
    NormTimes(a.re, -a.im, q, p);
  }

  lemma NormTimes(a: int, b: int, p: int, q: int)
    requires (a != 0 || b != 0) && a * p == b * q && a * q == -(b * p)
    ensures p == 0
  {
    assert a * (a * p) == a * (b * q) == b * (a * q) == -(b * (b * p));
    assert a * a * p + b * b * p == 0;
    assert (a * a + b * b) * p == 0;
    assert a * a + b * b > 0;
  }

  lemma MultipleDescribed(p: Pauli, f: Amp, h: Amp, n: nat, s: Bits, t: Bits)
    requires Fits(p, n) && Stabilises(p, f, n) && Proportional(f, h, n)
    requires |s| == n && f(s) != ZERO && |t| == n
    ensures Apply(p, h, n)(t) == h(t)
  {
    hide Expo, Rot, Mul;
    var u := XorBits(t, p.x);
    var e := Expo(p, u, n);
    assert Apply(p, f, n)(t) == f(t);
    MulRotRight(e, f(s), h(u));
    MulRotLeft(e, f(u), h(s));
    assert Mul(f(s), h(u)) == Mul(f(u), h(s)) && Mul(f(s), h(t)) == Mul(f(t), h(s));
    MulCancels(f(s), Rot(e, h(u)), h(t));
  }

  /** A tableau describes one state: with f it describes exactly the nonzero multiples of f. */
  lemma DescribesOne(n: nat, rows: Rows, f: Amp, h: Amp)
    requires Invariant(n, rows) && Describes(n, rows, f)
    ensures Describes(n, rows, h) <==> Nonzero(h, n) && Proportional(f, h, n)
  {
    hide Complete, Canonical, Apply, Proportional;
    if Describes(n, rows, h) {
      ProportionalFrom(n, rows, 0, Zeros(n), f, h);
    }
    if Nonzero(h, n) && Proportional(f, h, n) {
      var s: Bits :| |s| == n && f(s) != ZERO;
      forall i, t: Bits | n <= i < 2 * n && |t| == n ensures Apply(rows[i], h, n)(t) == h(t) {
        assert Stabilises(rows[i], f, n);
        MultipleDescribed(rows[i], f, h, n, s, t);
      }
    }
  }
}
