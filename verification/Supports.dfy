/** What the Gaussian form tells about the state: exactly which basis strings have an
    amplitude, that seed's string is one of them, and that there are 2^g. */
module Supports {
  import opened Sums
  import opened Paulis
  import opened Amplitudes
  import opened Projections
  import opened Tableaus
  import opened Measurement
  import opened RowOps
  import opened Echelon

  /** The sign equation that a Z-only generator puts on a basis string. */
  predicate Satisfies(p: Pauli, s: Bits)
    requires Fits(p, |s|)
  {
    (p.r + if Orthogonal(p, s) then 0 else 2) % 4 == 0
  }

  ghost predicate SatisfiesAll(n: nat, rows: Rows, g: nat, s: Bits)
    requires Shape(n, rows) && g <= n && |s| == n
  {
    forall q :: n + g <= q < 2 * n ==> Satisfies(rows[q], s)
  }

  lemma XOnlySum(s: Bits, t: Bits, p: Pauli)
    requires |s| == |t| && Fits(p, |s|)
    ensures Symp(XOnly(XorBits(s, t)), p, |s|) == (Symp(XOnly(s), p, |s|) != Symp(XOnly(t), p, |s|))
  {
    var n := |s|;
    XorPointwise(SympTerms(XOnly(s), p, n), SympTerms(XOnly(t), p, n), SympTerms(XOnly(XorBits(s, t)), p, n));
  }

  lemma ZOnlyExpo(p: Pauli, t: Bits)
    requires Fits(p, |t|) && forall c :: 0 <= c < |t| ==> !p.x[c]
    ensures (Expo(p, t, |t|) - p.r - if Orthogonal(p, t) then 0 else 2) % 4 == 0
  {
    SumOfTwos(ExpoTerms(p, t, |t|), SympTerms(XOnly(t), p, |t|));
  }

  lemma RotFixes(k: int, a: Gauss)
    requires Rot(k, a) == a && a != ZERO
    ensures k % 4 == 0
  {
  }

  /** A Z-only stabilizer rules out every string that fails its equation. */
  lemma AmplitudeSatisfies(p: Pauli, f: Amp, t: Bits)
    requires Fits(p, |t|) && (forall c :: 0 <= c < |t| ==> !p.x[c]) && Stabilises(p, f, |t|) && f(t) != ZERO
    ensures Satisfies(p, t)
  {
    hide Expo, Rot, Orthogonal;
    assert XorBits(t, p.x) == t;
    assert Apply(p, f, |t|)(t) == f(t);
    RotFixes(Expo(p, t, |t|), f(t));
    ZOnlyExpo(p, t);
  }

  // ---------------------------------------------------------------- the support

  /** t moved along the rows with an X part until it agrees with s on their leading columns. */
  ghost function Matched(n: nat, rows: Rows, g: nat, t: Bits, s: Bits, q: nat): (u: Bits)
    requires Shape(n, rows) && GaussianForm(n, rows, g) && |t| == |s| == n && n <= q <= n + g
    ensures |u| == n
  {
    if q == n then t
    else
      var u := Matched(n, rows, g, t, s, q - 1);
      var l := Lead(rows[q - 1].x, 0);
      if u[l] != s[l] then XorBits(u, rows[q - 1].x) else u
  }

  lemma {:induction false} MatchedAgrees(n: nat, rows: Rows, g: nat, t: Bits, s: Bits, q: nat, f: Amp)
    requires Shape(n, rows) && GaussianForm(n, rows, g) && |t| == |s| == n && n <= q <= n + g
    requires Describes(n, rows, f) && f(t) != ZERO
    ensures var u := Matched(n, rows, g, t, s, q);
            f(u) != ZERO && forall k :: n <= k < q ==> u[Lead(rows[k].x, 0)] == s[Lead(rows[k].x, 0)]
  {
    hide Stabilises, ZForm;
    if q > n {
      MatchedAgrees(n, rows, g, t, s, q - 1, f);
      FlippedAmplitude(rows[q - 1], f, Matched(n, rows, g, t, s, q - 1), n);
    }
  }

  /** A string has an amplitude exactly when it satisfies the equation of every Z-only
      generator. */
  lemma SupportIs(n: nat, rows: Rows, g: nat, f: Amp, s: Bits)
    requires Invariant(n, rows) && GaussianForm(n, rows, g) && Describes(n, rows, f) && |s| == n
    ensures f(s) != ZERO <==> SatisfiesAll(n, rows, g, s)
  {
    hide Stabilises, Complete, Canonical, Satisfies;
    if f(s) != ZERO {
      forall q | n + g <= q < 2 * n ensures Satisfies(rows[q], s) {
        AmplitudeSatisfies(rows[q], f, s);
      }
    }
    if SatisfiesAll(n, rows, g, s) {
      var t: Bits :| |t| == n && f(t) != ZERO;
      MatchedAgrees(n, rows, g, t, s, n + g, f);
      var u := Matched(n, rows, g, t, s, n + g);
      forall q | n + g <= q < 2 * n ensures Satisfies(rows[q], u) {
        AmplitudeSatisfies(rows[q], f, u);
      }
      SatisfiersEqual(n, rows, g, u, s);
    }
  }

  /** Two strings that satisfy all equations and agree on the leading X columns are equal. */
  lemma SatisfiersEqual(n: nat, rows: Rows, g: nat, u: Bits, s: Bits)
    requires Invariant(n, rows) && GaussianForm(n, rows, g) && |u| == |s| == n
    requires SatisfiesAll(n, rows, g, u) && SatisfiesAll(n, rows, g, s)
    requires forall k :: n <= k < n + g ==> u[Lead(rows[k].x, 0)] == s[Lead(rows[k].x, 0)]
    ensures u == s
  {
    hide Symp, Complete, Canonical, XOnly, ZForm;
    var d := XorBits(u, s);
    forall q | n + g <= q < 2 * n ensures Orthogonal(rows[q], d) {
      XOnlySum(u, s, rows[q]);
      assert Satisfies(rows[q], u) && Satisfies(rows[q], s);
    }
    forall c | 0 <= c < n ensures u[c] == s[c] {
      KernelTrivial(n, rows, g, d, c);
    }
  }

  // ---------------------------------------------------------------- back substitution

  /** Whether p and s meet in an odd number of the columns from j on. */
  ghost predicate OddFrom(p: Pauli, s: Bits, j: nat)
    requires Fits(p, |s|) && j <= |s|
  {
    Xor(SympTerms(XOnly(s), p, |s|)) != Xor(SympTerms(XOnly(s), p, |s|)[..j])
  }

  lemma OddFromStep(p: Pauli, s: Bits, j: nat)
    requires Fits(p, |s|) && j < |s|
    ensures OddFrom(p, s, j) == (OddFrom(p, s, j + 1) != (p.z[j] && s[j]))
  {
    XorPrefix(SympTerms(XOnly(s), p, |s|), j + 1);
  }

  lemma OddFromEnds(p: Pauli, s: Bits)
    requires Fits(p, |s|)
    ensures !OddFrom(p, s, |s|) && OddFrom(p, s, 0) == !Orthogonal(p, s)
  {
    assert SympTerms(XOnly(s), p, |s|)[..|s|] == SympTerms(XOnly(s), p, |s|);
  }

  lemma FlipOrthogonal(p: Pauli, s: Bits, l: nat)
    requires Fits(p, |s|) && l < |s|
    ensures Orthogonal(p, s[l := !s[l]]) == (Orthogonal(p, s) != p.z[l])
  {
    var n := |s|;
    var t, t' := SympTerms(XOnly(s), p, n), SympTerms(XOnly(s[l := !s[l]]), p, n);
    XorUpdate(t, l, t'[l]);
    assert t' == t[l := t'[l]];
  }

  /** s with the leading Z column of p flipped if it failed p's equation. */
  function Repaired(p: Pauli, s: Bits): (s': Bits)
    requires Fits(p, |s|) && Lead(p.z, 0) < |s|
    ensures |s'| == |s|
  {
    var l := Lead(p.z, 0);
    if Satisfies(p, s) then s else s[l := !s[l]]
  }

  /** The repair serves row i and breaks none of the rows below. */
  lemma SeedStep(n: nat, rows: Rows, g: nat, i: nat, s: Bits)
    requires Shape(n, rows) && n + g <= i < 2 * n && |s| == n && g <= n && ZForm(n, rows, g, 2 * n)
    requires forall q :: i < q < 2 * n ==> Satisfies(rows[q], s)
    ensures Lead(rows[i].z, 0) < n
    ensures forall q :: i <= q < 2 * n ==> Satisfies(rows[q], Repaired(rows[i], s))
  {
    hide Orthogonal;
    var l := Lead(rows[i].z, 0);
    forall q | i <= q < 2 * n ensures Satisfies(rows[q], Repaired(rows[i], s)) {
      if q > i { assert l < Lead(rows[q].z, 0); }
      FlipOrthogonal(rows[q], s, l);
    }
  }

  /** seed's promise: the string it leaves has a nonzero amplitude in the state. */
  lemma SeedHasAmplitude(n: nat, rows: Rows, g: nat, f: Amp, s: Bits)
    requires Invariant(n, rows) && GaussianForm(n, rows, g) && Describes(n, rows, f) && |s| == n
    requires SatisfiesAll(n, rows, g, s)
    ensures Apply(XOnly(s), (t: Bits) => if t == Zeros(n) then ONE else ZERO, n)(s) != ZERO
    ensures f(s) != ZERO
  {
    hide Complete, Canonical, Stabilises, XForm, ZForm, Satisfies;
    SupportIs(n, rows, g, f, s);
    assert XorBits(s, s) == Zeros(n);
    RotNonzero(Expo(XOnly(s), Zeros(n), n), ONE);
  }

  // ---------------------------------------------------------------- counting

  function Power2(g: nat): nat
  {
    if g == 0 then 1 else 2 * Power2(g - 1)
  }

  /** The string has an amplitude and vanishes on the leading columns of rows n..q-1. */
  ghost predicate Reduced(n: nat, rows: Rows, g: nat, f: Amp, q: nat, t: Bits)
    requires Shape(n, rows) && GaussianForm(n, rows, g) && n <= q <= n + g
  {
    |t| == n && f(t) != ZERO && forall k :: n <= k < q ==> !t[Lead(rows[k].x, 0)]
  }

  ghost function Indicator(n: nat, rows: Rows, g: nat, f: Amp, q: nat): Bits -> int
    requires Shape(n, rows) && GaussianForm(n, rows, g) && n <= q <= n + g
  {
    (t: Bits) => if Reduced(n, rows, g, f, q, t) then 1 else 0
  }

  /** The number of basis strings with an amplitude. */
  ghost function SupportSize(n: nat, f: Amp): int
  {
    Total(n, (t: Bits) => if f(t) != ZERO then 1 else 0)
  }

  /** Of the strings reduced by q rows, the next row pairs those with a 0 at its leading
      column with those with a 1. */
  lemma ReducedSplits(n: nat, rows: Rows, g: nat, f: Amp, q: nat, t: Bits)
    requires Shape(n, rows) && GaussianForm(n, rows, g) && n <= q < n + g && |t| == n
    requires Stabilises(rows[q], f, n)
    ensures var x := rows[q].x;
            (Reduced(n, rows, g, f, q, t) ==>
              Reduced(n, rows, g, f, q + 1, t) != Reduced(n, rows, g, f, q + 1, XorBits(t, x)))
            && (!Reduced(n, rows, g, f, q, t) ==>
              !Reduced(n, rows, g, f, q + 1, t) && !Reduced(n, rows, g, f, q + 1, XorBits(t, x)))
  {
    hide Stabilises, ZForm;
    var x := rows[q].x;
    var u, l := XorBits(t, x), Lead(x, 0);
    FlippedAmplitude(rows[q], f, t, n);
    FlippedAmplitude(rows[q], f, u, n);
    assert XorBits(u, x) == t;
    assert u[l] != t[l];
    forall k | n <= k < q ensures u[Lead(rows[k].x, 0)] == t[Lead(rows[k].x, 0)] {
      assert Lead(rows[k].x, 0) < l;
    }
  }

  lemma {:induction false} CountReduced(n: nat, rows: Rows, g: nat, f: Amp, q: nat)
    requires Invariant(n, rows) && GaussianForm(n, rows, g) && Describes(n, rows, f) && n <= q <= n + g
    ensures Total(n, Indicator(n, rows, g, f, q)) == Power2(n + g - q)
    decreases n + g - q
  {
    hide Stabilises, Complete, Canonical, XForm, ZForm, Reduced;
    var h := Indicator(n, rows, g, f, q);
    if q == n + g {
      var s := ReducedString(n, rows, g, f);
      forall t: Bits | |t| == n ensures h(t) == if t == s then 1 else 0 {
        if Reduced(n, rows, g, f, q, t) { ReducedUnique(n, rows, g, f, t, s); }
      }
      TotalPoint(n, h, s);
    } else {
      var k := Indicator(n, rows, g, f, q + 1);
      var x := rows[q].x;
      CountReduced(n, rows, g, f, q + 1);
      forall t: Bits | |t| == n ensures h(t) == k(t) + Shift(k, x)(t) {
        ReducedSplits(n, rows, g, f, q, t);
      }
      TotalSum(n, k, Shift(k, x), h);
      TotalShift(n, k, x);
    }
  }

  lemma ReducedString(n: nat, rows: Rows, g: nat, f: Amp) returns (s: Bits)
    requires Shape(n, rows) && GaussianForm(n, rows, g) && Describes(n, rows, f)
    ensures |s| == n && Reduced(n, rows, g, f, n + g, s)
  {
    hide Stabilises, ZForm;
    var t: Bits :| |t| == n && f(t) != ZERO;
    s := Matched(n, rows, g, t, Zeros(n), n + g);
    MatchedAgrees(n, rows, g, t, Zeros(n), n + g, f);
  }

  lemma ReducedUnique(n: nat, rows: Rows, g: nat, f: Amp, t: Bits, s: Bits)
    requires Invariant(n, rows) && GaussianForm(n, rows, g) && Describes(n, rows, f)
    requires Reduced(n, rows, g, f, n + g, t) && Reduced(n, rows, g, f, n + g, s)
    ensures t == s
  {
    hide Stabilises, Complete, Canonical, ZForm, Satisfies;
    SupportIs(n, rows, g, f, s);
    SupportIs(n, rows, g, f, t);
    SatisfiersEqual(n, rows, g, t, s);
  }

  /** gaussian's return value is the base-2 logarithm of the number of basis states with a
      nonzero amplitude. */
  lemma SupportCount(n: nat, rows: Rows, g: nat, f: Amp)
    requires Invariant(n, rows) && GaussianForm(n, rows, g) && Describes(n, rows, f)
    ensures SupportSize(n, f) == Power2(g)
  {
    hide Stabilises, Complete, Canonical, XForm, ZForm;
    CountReduced(n, rows, g, f, n);
    TotalSame(n, (t: Bits) => if f(t) != ZERO then 1 else 0, Indicator(n, rows, g, f, n));
  }

  /** What the tableau that gaussian leaves tells about the state it was run on: the state
      has 2^g basis strings, namely those that satisfy the equations seed solves. */
  lemma GaussianReads(n: nat, start: Rows, rows: Rows, g: nat, f: Amp, s: Bits)
    requires Shape(n, start) && Describes(n, start, f) && |s| == n
    requires Shape(n, rows) && SameGroup(n, start, rows) && GaussianForm(n, rows, g)
    requires Invariant(n, rows)
    ensures Describes(n, rows, f)
    ensures SupportSize(n, f) == Power2(g)
    ensures f(s) != ZERO <==> SatisfiesAll(n, rows, g, s)
  {
    hide Stabilises, Complete, Canonical, XForm, ZForm, SameGroup, SatisfiesAll, SupportSize, Power2;
    SameGroupDescribes(n, start, rows, f);
    SupportCount(n, rows, g, f);
    SupportIs(n, rows, g, f, s);
  }
}
